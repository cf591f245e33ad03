/** Cron expressions: the fields of a minute against the five texts, and the search for the next match. */
module Cron {
  import opened Common
  import opened Text

  const MINUTE := 60_000
  const HORIZON := 14 * 24 * 60 * MINUTE

  // ── One field ────────────────────────────────────────────────────────────

  /** `Number(s)` for digits and for the empty text; nothing stands for NaN. */
  function Number(s: string): Option<int> {
    if s == "" then Some(0) else if AllDigits(s) then Some(Decimal(s)) else None
  }

  function DigitPrefix(s: string): (r: string)
    ensures forall c :: c in r ==> IsDigit(c)
  {
    if s == "" || !IsDigit(s[0]) then "" else [s[0]] + DigitPrefix(s[1..])
  }

  /** `parseInt(s, 10)`: an optional sign and the digits behind it. */
  function ParseInt(s: string): Option<int> {
    var signed := s != "" && (s[0] == '-' || s[0] == '+');
    var digits := DigitPrefix(if signed then s[1..] else s);
    if digits == "" then None
    else Some(if signed && s[0] == '-' then -(Decimal(digits) as int) else Decimal(digits))
  }

  /** The remainder is zero; taken by zero or by NaN it is NaN. */
  predicate Divides(step: Option<int>, x: int) {
    step.Some? && step.value != 0 && x % step.value == 0
  }

  predicate Between(parts: seq<string>, value: nat) {
    && |parts| >= 2
    && Number(parts[0]).Some? && Number(parts[1]).Some?
    && Number(parts[0]).value <= value <= Number(parts[1]).value
  }

  predicate MatchField(field: string, value: nat) {
    if field == "*" then true
    else if '/' in field then
      var p := Split(field, '/');
      assert |p| >= 2 by { SplitInTwo(field, '/'); }
      var step := ParseInt(p[1]);
      if p[0] == "*" then Divides(step, value)
      else
        var range := Split(p[0], '-');
        Between(range, value) && Divides(step, value - Number(range[0]).value)
    else if '-' in field then Between(Split(field, '-'), value)
    else if ',' in field then exists p :: p in Split(field, ',') && Number(p) == Some(value as int)
    else ParseInt(field) == Some(value as int)
  }

  lemma {:induction false} SplitInTwo(s: string, sep: char)
    requires sep in s
    ensures |Split(s, sep)| >= 2
  {
    if s[0] != sep {
      SplitInTwo(s[1..], sep);
    }
  }

  // ── What the forms of a field mean ───────────────────────────────────────

  datatype Field =
    | Any
    | Every(step: nat)
    | Range(lo: nat, hi: nat)
    | Stepped(lo: nat, hi: nat, step: nat)
    | Among(values: seq<nat>)
    | Exactly(n: nat)

  predicate ValidField(f: Field) {
    && (f.Every? || f.Stepped? ==> f.step > 0)
    && (f.Among? ==> |f.values| >= 2)
  }

  function Texts(values: seq<nat>): (r: seq<string>)
    ensures |r| == |values| && forall i :: 0 <= i < |values| ==> r[i] == DecimalText(values[i])
  {
    seq(|values|, i requires 0 <= i < |values| => DecimalText(values[i]))
  }

  function FieldText(f: Field): string {
    match f
    case Any => "*"
    case Every(step) => "*/" + DecimalText(step)
    case Range(lo, hi) => DecimalText(lo) + "-" + DecimalText(hi)
    case Stepped(lo, hi, step) => DecimalText(lo) + "-" + DecimalText(hi) + "/" + DecimalText(step)
    case Among(values) => Join(Texts(values), ',')
    case Exactly(n) => DecimalText(n)
  }

  /** The values a field stands for. */
  ghost predicate Denotes(f: Field, v: nat) {
    match f
    case Any => true
    case Every(step) => exists k: nat :: v == k * step
    case Range(lo, hi) => lo <= v <= hi
    case Stepped(lo, hi, step) => v <= hi && exists k: nat :: v == lo + k * step
    case Among(values) => v in values
    case Exactly(n) => v == n
  }

  lemma {:induction false} DigitPrefixOfDigits(s: string)
    requires forall c :: c in s ==> IsDigit(c)
    ensures DigitPrefix(s) == s
  {
    if s != "" {
      DigitPrefixOfDigits(s[1..]);
    }
  }

  /** A printed number holds none of the separators and both readers read it back. */
  lemma NumberText(n: nat)
    ensures var s := DecimalText(n);
            && '/' !in s && '-' !in s && ',' !in s && '*' !in s
            && Number(s) == Some(n as int) && ParseInt(s) == Some(n as int)
  {
    DecimalReadsBack(n);
    DigitPrefixOfDigits(DecimalText(n));
    assert DecimalText(n)[0] in DecimalText(n);
  }

  lemma Multiple(step: nat, x: int)
    requires step > 0
    ensures x >= 0 && x % step == 0 <==> exists k: nat :: x == k * step
  {
    if x >= 0 && x % step == 0 {
      assert x == (x / step) * step;
    }
    forall k: nat | x == k * step ensures x % step == 0 && x >= 0 {
      DivMod(x, step, k, 0);
    }
  }

  lemma {:induction false} InJoin(parts: seq<string>, sep: char, c: char)
    ensures c in Join(parts, sep) ==> (c == sep && |parts| >= 2) || exists p :: p in parts && c in p
    ensures |parts| >= 2 ==> sep in Join(parts, sep)
  {
    if |parts| >= 2 {
      InJoin(parts[1..], sep, c);
      assert forall p :: p in parts[1..] ==> p in parts;
      assert parts[0] in parts;
      assert Join(parts, sep)[|parts[0]|] == sep;
    } else if |parts| == 1 {
      assert parts[0] in parts;
    }
  }

  lemma {:induction false} AmongMeansItsValues(values: seq<nat>, v: nat)
    requires |values| >= 2
    ensures MatchField(FieldText(Among(values)), v) <==> v in values
  {
    var texts, s := Texts(values), FieldText(Among(values));
    forall p | p in texts ensures '/' !in p && '-' !in p && ',' !in p && '*' !in p {
      var i :| 0 <= i < |texts| && p == texts[i];
      NumberText(values[i]);
    }
    InJoin(texts, ',', '/');
    InJoin(texts, ',', '-');
    InJoin(texts, ',', '*');
    SplitJoin(texts, ',');
    assert '*' !in s && '*' in "*";
    forall i | 0 <= i < |values| ensures Number(texts[i]) == Some(values[i] as int) {
      NumberText(values[i]);
    }
    assert MatchField(s, v) <==> exists p :: p in texts && Number(p) == Some(v as int);
    if v in values {
      var i :| 0 <= i < |values| && values[i] == v;
      assert texts[i] in texts;
    }
  }

  lemma {:induction false} EveryMeansItsMultiples(step: nat, v: nat)
    requires step > 0
    ensures MatchField(FieldText(Every(step)), v) <==> Denotes(Every(step), v)
  {
    var s, t := FieldText(Every(step)), DecimalText(step);
    NumberText(step);
    SplitPiece("*", t, '/');
    SplitPiece(t, "", '/');
    assert s == "*" + ['/'] + t;
    assert s[1] == '/' && '/' in s;
    assert Split(s, '/') == ["*", t];
    Multiple(step, v);
  }

  lemma RangeMeansItsBounds(lo: nat, hi: nat, v: nat)
    ensures MatchField(FieldText(Range(lo, hi)), v) <==> lo <= v <= hi
  {
    RangeSplits(lo, hi);
  }

  lemma {:induction false} SteppedMeansItsMultiples(lo: nat, hi: nat, step: nat, v: nat)
    requires step > 0
    ensures MatchField(FieldText(Stepped(lo, hi, step)), v) <==> lo <= v <= hi && (v - lo) % step == 0
  {
    var s, range, t := FieldText(Stepped(lo, hi, step)), FieldText(Range(lo, hi)), DecimalText(step);
    RangeSplits(lo, hi);
    NumberText(step);
    assert s == range + ['/'] + t;
    SplitPiece(range, t, '/');
    SplitPiece(t, "", '/');
    assert s[|range|] == '/' && '/' in s;
    assert Split(s, '/') == [range, t];
    assert '-' in range && '-' in s && "*" != range && '-' !in "*";
  }

  /** Every supported form of a field, as text, matches exactly the values it stands for. */
  lemma FieldMeansItsSet(f: Field, v: nat)
    requires ValidField(f)
    ensures MatchField(FieldText(f), v) <==> Denotes(f, v)
  {
    match f
    case Any =>
    case Every(step) => EveryMeansItsMultiples(step, v);
    case Range(lo, hi) => RangeMeansItsBounds(lo, hi, v);
    case Stepped(lo, hi, step) =>
      SteppedMeansItsMultiples(lo, hi, step, v);
      Multiple(step, v - lo);
      if k: nat :| v - lo == k * step { assert v == lo + k * step; }
      if k: nat :| v == lo + k * step { assert v - lo == k * step; }
    case Among(values) => AmongMeansItsValues(values, v);
    case Exactly(n) => NumberText(n);
  }

  lemma {:induction false} RangeSplits(lo: nat, hi: nat)
    ensures var s := FieldText(Range(lo, hi));
            && Split(s, '-') == [DecimalText(lo), DecimalText(hi)]
            && '-' in s && '/' !in s && ',' !in s && '*' !in s && s != "*"
            && Number(DecimalText(lo)) == Some(lo as int) && Number(DecimalText(hi)) == Some(hi as int)
  {
    NumberText(lo);
    NumberText(hi);
    var a, b := DecimalText(lo), DecimalText(hi);
    assert FieldText(Range(lo, hi)) == a + ['-'] + b;
    assert (a + ['-'] + b)[|a|] == '-';
    SplitPiece(a, b, '-');
    SplitPiece(b, "", '-');
    assert "*"[0] == '*';
  }

  // ── Lists of items ───────────────────────────────────────────────────────

  /** What standard cron allows between the commas of a list. */
  predicate IsItem(f: Field) {
    !f.Among? && ValidField(f) && (f.Range? || f.Stepped? ==> f.lo <= f.hi)
  }

  predicate HasStep(f: Field) {
    f.Every? || f.Stepped?
  }

  predicate HasDash(f: Field) {
    f.Range? || f.Stepped?
  }

  ghost predicate AllItems(items: seq<Field>) {
    forall i :: 0 <= i < |items| ==> IsItem(items[i])
  }

  function ItemTexts(items: seq<Field>): (r: seq<string>)
    ensures |r| == |items| && forall i :: 0 <= i < |items| ==> r[i] == FieldText(items[i])
  {
    seq(|items|, i requires 0 <= i < |items| => FieldText(items[i]))
  }

  function ListText(items: seq<Field>): string {
    Join(ItemTexts(items), ',')
  }

  /** What the items stand for together. */
  ghost predicate Union(items: seq<Field>, v: nat) {
    exists i :: 0 <= i < |items| && Denotes(items[i], v)
  }

  /** What a list matches instead: its first item if that has a step, the plain numbers if there is neither step nor range. */
  ghost predicate ListMatches(items: seq<Field>, v: nat)
    requires items != []
  {
    if exists i :: 0 <= i < |items| && HasStep(items[i]) then HasStep(items[0]) && Denotes(items[0], v)
    else if exists i :: 0 <= i < |items| && HasDash(items[i]) then false
    else exists i :: 0 <= i < |items| && items[i] == Exactly(v)
  }

  lemma {:induction false} SplitPrefix(a: string, b: string, sep: char)
    requires sep !in a
    ensures Split(a + b, sep) == [a + Split(b, sep)[0]] + Split(b, sep)[1..]
  {
    if a == "" {
      assert a + b == b;
      assert a + Split(b, sep)[0] == Split(b, sep)[0];
    } else {
      assert (a + b)[1..] == a[1..] + b;
      SplitPrefix(a[1..], b, sep);
      var x := Split(b, sep)[0];
      assert [a[0]] + (a[1..] + x) == a + x;
    }
  }

  /** The separators in the text of one item. */
  lemma ItemText(f: Field)
    requires IsItem(f)
    ensures var s := FieldText(f);
            && ('/' in s <==> HasStep(f)) && ('-' in s <==> HasDash(f)) && ',' !in s && s != ""
            && (s == "*" <==> f.Any?)
  {
    match f
    case Any =>
    case Every(step) =>
      NumberText(step);
      assert FieldText(f)[1] == '/';
    case Range(lo, hi) => RangeSplits(lo, hi);
    case Stepped(lo, hi, step) =>
      RangeSplits(lo, hi);
      NumberText(step);
      var range := FieldText(Range(lo, hi));
      assert FieldText(f) == range + "/" + DecimalText(step);
      assert FieldText(f)[|range|] == '/';
    case Exactly(n) =>
      NumberText(n);
      assert "*"[0] == '*';
  }

  /** A list of two or more is its first item, a comma and the rest. */
  lemma ListParts(items: seq<Field>)
    requires |items| >= 2
    ensures ListText(items) == FieldText(items[0]) + ([','] + ListText(items[1..]))
  {
    assert ItemTexts(items)[1..] == ItemTexts(items[1..]);
  }

  lemma {:induction false} ListSeparators(items: seq<Field>)
    requires items != [] && AllItems(items)
    ensures '/' in ListText(items) <==> exists i :: 0 <= i < |items| && HasStep(items[i])
    ensures '-' in ListText(items) <==> exists i :: 0 <= i < |items| && HasDash(items[i])
  {
    ItemText(items[0]);
    if |items| >= 2 {
      ListParts(items);
      ListSeparators(items[1..]);
      assert forall i :: 0 < i < |items| ==> items[1..][i - 1] == items[i];
    }
  }

  /** With a comma behind it, a number at either end of a range is none. */
  lemma CommaIsNoNumber(a: string, y: string)
    ensures Number(a + ([','] + y)) == None
  {
    assert (a + ([','] + y))[|a|] == ',';
    assert !IsDigit(',');
  }

  /** A field that goes on behind its first plain item is not a range, wherever its first dash stands. */
  lemma NoRangeBehindComma(f: Field, y: string, v: nat)
    requires IsItem(f) && !HasStep(f)
    ensures !Between(Split(FieldText(f) + ([','] + y), '-'), v)
  {
    ItemText(f);
    var tail := [','] + y;
    SplitPrefix([','], y, '-');
    var rest := Split(tail, '-');
    assert rest[0] == [','] + Split(y, '-')[0];
    if f.Range? {
      var lo, hi := DecimalText(f.lo), DecimalText(f.hi);
      NumberText(f.lo);
      NumberText(f.hi);
      Assoc(lo, ['-'], hi);
      Assoc(lo + ['-'], hi, tail);
      assert FieldText(f) + tail == lo + ['-'] + (hi + tail);
      SplitPiece(lo, hi + tail, '-');
      SplitPrefix(hi, tail, '-');
      CommaIsNoNumber(hi, Split(y, '-')[0]);
    } else {
      SplitPrefix(FieldText(f), tail, '-');
      CommaIsNoNumber(FieldText(f), Split(y, '-')[0]);
    }
  }

  /** Reading a number stops at a comma. */
  lemma NumberBeforeComma(n: nat, y: string)
    ensures ParseInt(DecimalText(n) + ([','] + y)) == Some(n as int)
  {
    var t := DecimalText(n);
    NumberText(n);
    DecimalReadsBack(n);
    DigitsThenComma(t, y);
    assert (t + ([','] + y))[0] == t[0] && t[0] in t;
  }

  lemma {:induction false} DigitsThenComma(t: string, y: string)
    requires forall c :: c in t ==> IsDigit(c)
    ensures DigitPrefix(t + ([','] + y)) == t
  {
    var s := t + ([','] + y);
    if t == "" {
      assert s[0] == ',';
    } else {
      assert s[0] == t[0] && t[0] in t && s[1..] == t[1..] + ([','] + y);
      DigitsThenComma(t[1..], y);
      assert [t[0]] + t[1..] == t;
    }
  }

  /** Of a field with a step only the text before the first slash and the number behind it are looked at. */
  predicate StepParts(s: string, head: string, step: nat) {
    && '/' in s && s != "*"
    && |Split(s, '/')| >= 2 && Split(s, '/')[0] == head && ParseInt(Split(s, '/')[1]) == Some(step as int)
  }

  lemma SameStepParts(s: string, t: string, head: string, step: nat, v: nat)
    requires StepParts(s, head, step) && StepParts(t, head, step)
    ensures MatchField(s, v) <==> MatchField(t, v)
  {
  }

  function StepHead(f: Field): string
    requires HasStep(f)
  {
    if f.Every? then "*" else FieldText(Range(f.lo, f.hi))
  }

  lemma StepItem(f: Field)
    requires IsItem(f) && HasStep(f)
    ensures FieldText(f) == StepHead(f) + ['/'] + DecimalText(f.step) && '/' !in StepHead(f) && StepHead(f) != ""
  {
    if f.Stepped? {
      RangeSplits(f.lo, f.hi);
    }
  }

  /** The slash of a step, when digits and perhaps a comma with more text follow. */
  lemma SlashParts(head: string, step: nat, tail: string)
    requires '/' !in head && head != "" && (tail == "" || tail[0] == ',')
    ensures StepParts(head + ['/'] + (DecimalText(step) + tail), head, step)
  {
    var t := DecimalText(step);
    var s := head + ['/'] + (t + tail);
    NumberText(step);
    SplitPiece(head, t + tail, '/');
    SplitPrefix(t, tail, '/');
    assert s[|head|] == '/';
    if tail == "" {
      assert t + "" == t;
      assert Split(s, '/')[1] == t;
    } else {
      SplitPrefix([','], tail[1..], '/');
      assert [','] + tail[1..] == tail;
      NumberBeforeComma(step, Split(tail[1..], '/')[0]);
      assert Split(s, '/')[1] == t + ([','] + Split(tail[1..], '/')[0]);
    }
  }

  /** A step item at the front swallows the rest of the list. */
  lemma StepSwallowsRest(f: Field, y: string, v: nat)
    requires IsItem(f) && HasStep(f)
    ensures MatchField(FieldText(f) + ([','] + y), v) <==> Denotes(f, v)
  {
    var head, t, tail := StepHead(f), DecimalText(f.step), [','] + y;
    StepItem(f);
    SlashParts(head, f.step, tail);
    Assoc(head + ['/'], t, tail);
    SlashParts(head, f.step, "");
    assert t + "" == t;
    SameStepParts(FieldText(f) + tail, FieldText(f), head, f.step, v);
    FieldMeansItsSet(f, v);
  }

  /** A slash further back: what stands in front of it is no range. */
  lemma SlashBehindFirst(first: Field, rest: string, v: nat)
    requires IsItem(first) && !HasStep(first) && '/' in rest
    ensures !MatchField(FieldText(first) + ([','] + rest), v)
  {
    var text := FieldText(first);
    var s := text + ([','] + rest);
    ItemText(first);
    SplitPrefix(text, [','] + rest, '/');
    SplitPrefix([','], rest, '/');
    var y := Split(rest, '/')[0];
    assert Split(s, '/')[0] == text + ([','] + y);
    assert (text + ([','] + y))[|text|] == ',' && s[|text|] == ',';
    assert ',' !in "*";
    NoRangeBehindComma(first, y, v);
  }

  /** What every list of two or more items matches. */
  lemma ListMeans(items: seq<Field>, v: nat)
    requires |items| >= 2 && AllItems(items)
    ensures MatchField(ListText(items), v) <==> ListMatches(items, v)
  {
    var first, rest := items[0], ListText(items[1..]);
    ListParts(items);
    ListSeparators(items);
    ItemText(first);
    if HasStep(first) {
      StepSwallowsRest(first, rest, v);
    } else if '/' in ListText(items) {
      SlashBehindFirst(first, rest, v);
    } else {
      NoSlashListMeans(items, v);
    }
  }

  lemma NoSlashListMeans(items: seq<Field>, v: nat)
    requires |items| >= 2 && AllItems(items) && '/' !in ListText(items)
    ensures MatchField(ListText(items), v) <==> ListMatches(items, v)
  {
    var s := ListText(items);
    ListParts(items);
    ListSeparators(items);
    ItemText(items[0]);
    assert s[|FieldText(items[0])|] == ',' && ',' in s && ',' !in "*";
    if '-' in s {
      NoRangeBehindComma(items[0], ListText(items[1..]), v);
    } else {
      PlainListMeans(items, v);
    }
  }

  lemma PlainListMeans(items: seq<Field>, v: nat)
    requires |items| >= 2 && AllItems(items) && forall i :: 0 <= i < |items| ==> !HasStep(items[i]) && !HasDash(items[i])
    ensures (exists p :: p in Split(ListText(items), ',') && Number(p) == Some(v as int))
       <==> exists i :: 0 <= i < |items| && items[i] == Exactly(v)
  {
    var texts := ItemTexts(items);
    forall p | p in texts ensures ',' !in p {
      var i :| 0 <= i < |texts| && texts[i] == p;
      ItemText(items[i]);
    }
    SplitJoin(texts, ',');
    forall i | 0 <= i < |items| ensures Number(texts[i]) == (if items[i].Exactly? then Some(items[i].n as int) else None) {
      if items[i].Exactly? {
        NumberText(items[i].n);
      } else {
        assert texts[i] == "*" && "*"[0] == '*' && !IsDigit('*');
      }
    }
    if i :| 0 <= i < |items| && items[i] == Exactly(v) {
      assert texts[i] in texts;
    }
  }

  /** The item stands for a value that the field can take. */
  ghost predicate InField(f: Field, lo: nat, hi: nat) {
    exists v :: lo <= v <= hi && Denotes(f, v)
  }

  /** Whatever `g` stands for in the field, `f` does too. */
  ghost predicate Covers(f: Field, g: Field, lo: nat, hi: nat) {
    forall v :: lo <= v <= hi && Denotes(g, v) ==> Denotes(f, v)
  }

  /** Every value of the field is one of the plain numbers. */
  ghost predicate ListsAll(items: seq<Field>, lo: nat, hi: nat) {
    forall v :: lo <= v <= hi ==> Exactly(v) in items
  }

  predicate Plain(f: Field) {
    f.Any? || f.Exactly?
  }

  /**
   The list begins with a step, and the others add nothing to it; or it holds only numbers and stars, and a
   star only if the numbers are complete; or nothing in it is a value of the field.
   */
  ghost predicate ReadRight(items: seq<Field>, lo: nat, hi: nat)
    requires items != []
  {
    if HasStep(items[0]) then forall f :: f in items ==> Covers(items[0], f, lo, hi)
    else if forall f :: f in items ==> Plain(f) then (Any in items ==> ListsAll(items, lo, hi))
    else forall f :: f in items ==> !InField(f, lo, hi)
  }

  /** Read as standard cron says, as far as the values from `lo` to `hi` go. */
  ghost predicate MeansUnion(items: seq<Field>, lo: nat, hi: nat) {
    forall v :: lo <= v <= hi ==> (MatchField(ListText(items), v) <==> Union(items, v))
  }

  lemma StepListRight(items: seq<Field>, lo: nat, hi: nat)
    requires |items| >= 2 && AllItems(items) && HasStep(items[0])
    ensures MeansUnion(items, lo, hi) <==> ReadRight(items, lo, hi)
  {
    forall v: nat ensures MatchField(ListText(items), v) <==> Denotes(items[0], v) {
      ListMeans(items, v);
    }
    if MeansUnion(items, lo, hi) {
      forall f, v | f in items && lo <= v <= hi && Denotes(f, v) ensures Denotes(items[0], v) {
        var i :| 0 <= i < |items| && items[i] == f;
        assert Union(items, v);
      }
    }
    if ReadRight(items, lo, hi) {
      forall v | lo <= v <= hi && Union(items, v) ensures Denotes(items[0], v) {
        var i :| 0 <= i < |items| && Denotes(items[i], v);
        assert Covers(items[0], items[i], lo, hi);
      }
    }
  }

  lemma PlainMatches(items: seq<Field>, v: nat)
    requires |items| >= 2 && AllItems(items) && forall f :: f in items ==> Plain(f)
    ensures MatchField(ListText(items), v) <==> Exactly(v) in items
  {
    assert forall i :: 0 <= i < |items| ==> Plain(items[i]);
    ListMeans(items, v);
  }

  lemma PlainUnion(items: seq<Field>, v: nat)
    requires forall f :: f in items ==> Plain(f)
    ensures Union(items, v) <==> Exactly(v) in items || Any in items
  {
    if Union(items, v) {
      var i :| 0 <= i < |items| && Denotes(items[i], v);
      assert items[i] in items && Plain(items[i]);
    }
    if f :| f in items && f in {Exactly(v), Any} {
      var i :| 0 <= i < |items| && items[i] == f;
      assert Denotes(items[i], v);
    }
  }

  lemma PlainListRight(items: seq<Field>, lo: nat, hi: nat)
    requires |items| >= 2 && AllItems(items) && forall f :: f in items ==> Plain(f)
    ensures MeansUnion(items, lo, hi) <==> (Any in items ==> ListsAll(items, lo, hi))
  {
    forall v: nat
      ensures MatchField(ListText(items), v) <==> Exactly(v) in items
      ensures Union(items, v) <==> Exactly(v) in items || Any in items
    {
      PlainMatches(items, v);
      PlainUnion(items, v);
    }
    if MeansUnion(items, lo, hi) && Any in items {
      forall v | lo <= v <= hi ensures Exactly(v) in items {
        assert Union(items, v);
      }
    }
  }

  lemma BrokenListRight(items: seq<Field>, lo: nat, hi: nat, k: nat)
    requires |items| >= 2 && AllItems(items) && !HasStep(items[0]) && k < |items| && !Plain(items[k])
    ensures MeansUnion(items, lo, hi) <==> ReadRight(items, lo, hi)
  {
    forall v: nat ensures !MatchField(ListText(items), v) {
      BrokenListMatchesNothing(items, k, v);
    }
    if MeansUnion(items, lo, hi) {
      forall f, v | f in items && lo <= v <= hi ensures !Denotes(f, v) {
        var i :| 0 <= i < |items| && items[i] == f;
        assert !Union(items, v);
      }
    }
    if ReadRight(items, lo, hi) {
      forall v | lo <= v <= hi ensures !Union(items, v) {
        if i :| 0 <= i < |items| && Denotes(items[i], v) {
          assert InField(items[i], lo, hi);
        }
      }
    }
  }

  /**
   For the values that a field can take, a list means what standard cron says, the union of its items, if
   and only if it begins with a step to which the others add nothing, or holds only numbers, or numbers for
   all values beside a star, or nothing that is a value of the field.
   */
  lemma ListMeansUnionIff(items: seq<Field>, lo: nat, hi: nat)
    requires |items| >= 2 && AllItems(items)
    ensures MeansUnion(items, lo, hi) <==> ReadRight(items, lo, hi)
  {
    if HasStep(items[0]) {
      StepListRight(items, lo, hi);
    } else if forall f :: f in items ==> Plain(f) {
      assert items[0] in items;
      PlainListRight(items, lo, hi);
    } else {
      var f :| f in items && !Plain(f);
      var k :| 0 <= k < |items| && items[k] == f;
      BrokenListRight(items, lo, hi, k);
    }
  }

  /** With a range anywhere and no step, or a step behind the front, a list matches nothing at all. */
  lemma BrokenListMatchesNothing(items: seq<Field>, k: nat, v: nat)
    requires |items| >= 2 && AllItems(items) && k < |items| && !HasStep(items[0]) && (HasDash(items[k]) || HasStep(items[k]))
    ensures !MatchField(ListText(items), v)
  {
    ListMeans(items, v);
  }

  lemma PairText(a: Field, b: Field)
    ensures ListText([a, b]) == FieldText(a) + ([','] + FieldText(b))
  {
    ListParts([a, b]);
    assert [a, b][1..] == [b];
    assert ItemTexts([b]) == [FieldText(b)];
  }

  lemma SmallTexts()
    ensures FieldText(Range(1, 5)) == "1-5" && FieldText(Exactly(10)) == "10" && FieldText(Every(5)) == "*/5"
  {
    assert DecimalText(1) == "1" && DecimalText(5) == "5";
    assert DecimalText(10) == DecimalText(1) + "0";
  }

  lemma PairMatchesNothing(a: Field, b: Field, s: string, v: nat)
    requires IsItem(a) && IsItem(b) && !HasStep(a) && !HasStep(b) && (HasDash(a) || HasDash(b))
    requires s == FieldText(a) + ([','] + FieldText(b))
    ensures !MatchField(s, v)
  {
    PairText(a, b);
    BrokenListMatchesNothing([a, b], if HasDash(a) then 0 else 1, v);
  }

  /** A range in front of a number: 1-5,10 matches nothing; 10,1-5 does not either. */
  lemma RangeAndNumber(v: nat)
    ensures !MatchField("1-5,10", v) && !MatchField("10,1-5", v)
  {
    SmallTexts();
    assert "1-5,10" == "1-5" + ([','] + "10") && "10,1-5" == "10" + ([','] + "1-5");
    PairMatchesNothing(Range(1, 5), Exactly(10), "1-5,10", v);
    PairMatchesNothing(Exactly(10), Range(1, 5), "10,1-5", v);
  }

  /** A step in front of a number: of "every fifth, and 7" the 7 is dropped. */
  lemma StepThenNumber(v: nat)
    ensures MatchField("*/5,7", v) <==> v % 5 == 0
  {
    SmallTexts();
    assert "*/5,7" == "*/5" + ([','] + "7");
    StepSwallowsRest(Every(5), "7", v);
    Multiple(5, v);
  }

  /** In a list, a missing number is zero, and letters are no number. */
  lemma UnusualItems(v: nat)
    ensures MatchField("5,", v) <==> v in {0, 5}
    ensures MatchField("x,5", v) <==> v == 5
  {
    ListOfTwo("5", "", v);
    ListOfTwo("x", "5", v);
    assert "5," == "5" + ([','] + "") && "x,5" == "x" + ([','] + "5");
    assert AllDigits("5") && 'x' in "x" && !IsDigit('x');
    assert Number("5") == Some(5) && Number("") == Some(0) && Number("x") == None;
  }

  /** A dash in front of a number is a range from zero; a plus is read as such. */
  lemma SignedNumbers(v: nat)
    ensures MatchField("-5", v) <==> v <= 5
    ensures MatchField("+5", v) <==> v == 5
  {
    TwoParts("", "5", '-');
    assert "-5" == "" + (['-'] + "5") && "+5"[1..] == "5";
    assert AllDigits("5") && Decimal("5") == 5;
    assert DigitPrefix("5") == "5";
  }

  lemma ListOfTwo(a: string, b: string, v: nat)
    requires forall c :: c in a + b ==> c !in {',', '-', '/'}
    ensures MatchField(a + ([','] + b), v) <==> Number(a) == Some(v) || Number(b) == Some(v)
  {
    assert forall c :: c in a || c in b ==> c in a + b;
    TwoParts(a, b, ',');
    assert [a, b][0] == a && [a, b][1] == b;
    assert forall c :: c in a + ([','] + b) ==> c in a + b || c == ',';
    assert (a + ([','] + b))[|a|] == ',';
  }

  lemma TwoParts(a: string, b: string, sep: char)
    requires sep !in a && sep !in b
    ensures Split(a + ([sep] + b), sep) == [a, b]
  {
    assert Split(b, sep) == [b] by { SplitPiece(b, "", sep); }
    assert Split(a + [sep] + b, sep) == [a] + [b] by { SplitPiece(a, b, sep); }
    assert a + ([sep] + b) == a + [sep] + b;
  }

  // ── The search ───────────────────────────────────────────────────────────

  /** The local calendar's fields of a minute. */
  datatype Fields = Fields(minute: nat, hour: nat, day: nat, month: nat, weekday: nat)

  /** Local calendar, by minute since the epoch. */
  type Calendar = int -> Fields

  predicate Matches(parts: seq<string>, f: Fields)
    requires |parts| == 5
  {
    && MatchField(parts[0], f.minute)
    && MatchField(parts[1], f.hour)
    && MatchField(parts[2], f.day)
    && MatchField(parts[3], f.month)
    && MatchField(parts[4], f.weekday)
  }

  /** The full minute at time `t` matches. */
  predicate MatchesAt(parts: seq<string>, cal: Calendar, t: int) {
    |parts| == 5 && t % MINUTE == 0 && Matches(parts, cal(t / MINUTE))
  }

  /** The first full minute after `from`. */
  function Start(from: int): (t: int)
    ensures from < t <= from + MINUTE && t % MINUTE == 0
  {
    (from + MINUTE) / MINUTE * MINUTE
  }

  function Search(parts: seq<string>, cal: Calendar, t: int, end: int): Option<int>
    decreases end - t
  {
    if t >= end then None
    else if MatchesAt(parts, cal, t) then Some(t)
    else Search(parts, cal, t + MINUTE, end)
  }

  function NextCron(parts: seq<string>, cal: Calendar, from: int): Option<int> {
    if |parts| != 5 then None else Search(parts, cal, Start(from), Start(from) + HORIZON)
  }

  ghost predicate NoneBetween(parts: seq<string>, cal: Calendar, lo: int, hi: int) {
    forall t :: lo < t < hi ==> !MatchesAt(parts, cal, t)
  }

  lemma {:induction false} SearchIsLeast(parts: seq<string>, cal: Calendar, t: int, end: int)
    requires t % MINUTE == 0
    ensures var r := Search(parts, cal, t, end);
            && (r.Some? ==> t <= r.value < end && MatchesAt(parts, cal, r.value)
                            && NoneBetween(parts, cal, t - 1, r.value))
            && (r.None? ==> NoneBetween(parts, cal, t - 1, end))
    decreases end - t
  {
    if t < end && !MatchesAt(parts, cal, t) {
      SearchIsLeast(parts, cal, t + MINUTE, end);
      forall u | t - 1 < u < t + MINUTE ensures !MatchesAt(parts, cal, u) {
        BetweenMinutes(t, u);
      }
    }
  }

  lemma BetweenMinutes(t: int, u: int)
    requires t % MINUTE == 0 && t <= u < t + MINUTE
    ensures u % MINUTE == 0 <==> u == t
  {
  }

  /** The least match after `from`; none only if the fourteen days from the next full minute have none. */
  lemma NextCronIsLeast(parts: seq<string>, cal: Calendar, from: int)
    ensures var r := NextCron(parts, cal, from);
            && (r.Some? ==> from < r.value < Start(from) + HORIZON && MatchesAt(parts, cal, r.value)
                            && NoneBetween(parts, cal, from, r.value))
            && (r.None? <==> NoneBetween(parts, cal, from, Start(from) + HORIZON))
  {
    if |parts| == 5 {
      SearchIsLeast(parts, cal, Start(from), Start(from) + HORIZON);
      assert forall u :: from < u < Start(from) ==> u % MINUTE != 0;
    }
  }

  // ── Expressions by what their fields denote ──────────────────────────────

  /** Five fields in the order minute, hour, day of the month, month, day of the week. */
  predicate IsExpression(fields: seq<Field>) {
    |fields| == 5 && forall i :: 0 <= i < 5 ==> ValidField(fields[i])
  }

  function FieldTexts(fields: seq<Field>): (r: seq<string>)
    ensures |r| == |fields| && forall i :: 0 <= i < |fields| ==> r[i] == FieldText(fields[i])
  {
    seq(|fields|, i requires 0 <= i < |fields| => FieldText(fields[i]))
  }

  /** A full minute whose minute, hour, day, month and weekday are what the fields in these positions denote. */
  ghost predicate HitAt(fields: seq<Field>, cal: Calendar, t: int)
    requires |fields| == 5
  {
    && t % 60_000 == 0
    && Denotes(fields[0], cal(t / 60_000).minute)
    && Denotes(fields[1], cal(t / 60_000).hour)
    && Denotes(fields[2], cal(t / 60_000).day)
    && Denotes(fields[3], cal(t / 60_000).month)
    && Denotes(fields[4], cal(t / 60_000).weekday)
  }

  /** Fourteen days from the first full minute after `from`. */
  function EndOfSearch(from: int): int {
    (from / 60_000 + 1) * 60_000 + 14 * 86_400_000
  }

  /** The first hit after `from`, and none exactly if there is none in the fourteen days. */
  ghost predicate IsNextHit(fields: seq<Field>, cal: Calendar, from: int, r: Option<int>)
    requires |fields| == 5
  {
    match r
    case Some(t) => from < t < EndOfSearch(from) && HitAt(fields, cal, t) && forall u :: from < u < t ==> !HitAt(fields, cal, u)
    case None => forall u :: from < u < EndOfSearch(from) ==> !HitAt(fields, cal, u)
  }

  lemma HitsAreMatches(fields: seq<Field>, cal: Calendar, t: int)
    requires IsExpression(fields)
    ensures MatchesAt(FieldTexts(fields), cal, t) <==> HitAt(fields, cal, t)
  {
    var f := cal(t / MINUTE);
    FieldMeansItsSet(fields[0], f.minute);
    FieldMeansItsSet(fields[1], f.hour);
    FieldMeansItsSet(fields[2], f.day);
    FieldMeansItsSet(fields[3], f.month);
    FieldMeansItsSet(fields[4], f.weekday);
  }

  lemma SearchEnds(from: int)
    ensures Start(from) + HORIZON == EndOfSearch(from)
  {
  }

  /** An expression is searched for by what its five fields denote, each against its own part of the date. */
  lemma NextCronIsNextHit(fields: seq<Field>, cal: Calendar, from: int)
    requires IsExpression(fields)
    ensures IsNextHit(fields, cal, from, NextCron(FieldTexts(fields), cal, from))
  {
    var parts := FieldTexts(fields);
    NextCronIsLeast(parts, cal, from);
    SearchEnds(from);
    forall t ensures MatchesAt(parts, cal, t) <==> HitAt(fields, cal, t) {
      HitsAreMatches(fields, cal, t);
    }
  }

  /** There is just one first hit. */
  lemma NextHitIsUnique(fields: seq<Field>, cal: Calendar, from: int, r: Option<int>, q: Option<int>)
    requires |fields| == 5 && IsNextHit(fields, cal, from, r) && IsNextHit(fields, cal, from, q)
    ensures r == q
  {
  }

  /** June of a year in which it begins on a Monday. */
  function June(m: int): Fields {
    Fields(m % 60, m / 60 % 24, m / 1440 % 30 + 1, 6, (m / 1440 + 1) % 7)
  }

  const WEEKLY := [Exactly(0), Exactly(9), Any, Any, Exactly(1)]

  lemma WeeklyHits(t: int)
    ensures HitAt(WEEKLY, June, t) <==>
      t % MINUTE == 0 && var m := t / MINUTE; m % 60 == 0 && m / 60 % 24 == 9 && (m / 1440 + 1) % 7 == 1
  {
  }

  lemma WeeklyIsNext(from: int, hit: int)
    requires from == 1440 * MINUTE && hit == (7 * 1440 + 540) * MINUTE
    ensures IsNextHit(WEEKLY, June, from, Some(hit))
  {
    WeeklyHits(hit);
    forall u | from < u < hit ensures !HitAt(WEEKLY, June, u) {
      WeeklyHits(u);
      MondayAtNine(u / MINUTE);
    }
  }

  /** Mondays at nine, looked for on Tuesday the second: Monday the eighth. */
  lemma WeeklyRuns()
    ensures NextCron(FieldTexts(WEEKLY), June, 1440 * MINUTE) == Some((7 * 1440 + 540) * MINUTE)
  {
    var from, hit := 1440 * MINUTE, (7 * 1440 + 540) * MINUTE;
    NextCronIsNextHit(WEEKLY, June, from);
    WeeklyIsNext(from, hit);
    NextHitIsUnique(WEEKLY, June, from, NextCron(FieldTexts(WEEKLY), June, from), Some(hit));
  }

  lemma MondayAtNine(m: int)
    requires 1440 <= m < 7 * 1440 + 540
    ensures !(m % 60 == 0 && m / 60 % 24 == 9 && (m / 1440 + 1) % 7 == 1)
  {
  }

  /** The end of a year, from the twentieth of December on. */
  function YearEnd(m: int): Fields {
    var d := m / 1440;
    var day, month := if d < 12 then d + 20 else d - 11, if d < 12 then 12 else 1;
    Fields(m % 60, m / 60 % 24, if day < 1 then 1 else day, month, (d + 7000) % 7)
  }

  const YEARLY := [Exactly(0), Exactly(0), Exactly(1), Exactly(1), Any]

  lemma YearlyHits(t: int)
    ensures HitAt(YEARLY, YearEnd, t) <==>
      t % MINUTE == 0 && var f := YearEnd(t / MINUTE); f.minute == 0 && f.hour == 0 && f.day == 1 && f.month == 1
  {
  }

  lemma YearlyIsNext(from: int, hit: int)
    requires from == 5 * 1440 * MINUTE && hit == 12 * 1440 * MINUTE
    ensures IsNextHit(YEARLY, YearEnd, from, Some(hit))
  {
    YearlyHits(hit);
    forall u | from < u < hit ensures !HitAt(YEARLY, YearEnd, u) {
      YearlyHits(u);
      NotNewYear(u / MINUTE);
    }
  }

  lemma YearlyIsOver(from: int)
    requires from == 13 * 1440 * MINUTE
    ensures IsNextHit(YEARLY, YearEnd, from, None)
  {
    forall u | from < u < EndOfSearch(from) ensures !HitAt(YEARLY, YearEnd, u) {
      YearlyHits(u);
      NotNewYear(u / MINUTE);
    }
  }

  /** New Year at midnight, looked for on Christmas Day: a week later. Looked for on the second of January: not in sight. */
  lemma YearlyRuns()
    ensures NextCron(FieldTexts(YEARLY), YearEnd, 5 * 1440 * MINUTE) == Some(12 * 1440 * MINUTE)
    ensures NextCron(FieldTexts(YEARLY), YearEnd, 13 * 1440 * MINUTE) == None
  {
    var from, hit, late := 5 * 1440 * MINUTE, 12 * 1440 * MINUTE, 13 * 1440 * MINUTE;
    NextCronIsNextHit(YEARLY, YearEnd, from);
    NextCronIsNextHit(YEARLY, YearEnd, late);
    YearlyIsNext(from, hit);
    YearlyIsOver(late);
    NextHitIsUnique(YEARLY, YearEnd, from, NextCron(FieldTexts(YEARLY), YearEnd, from), Some(hit));
    NextHitIsUnique(YEARLY, YearEnd, late, NextCron(FieldTexts(YEARLY), YearEnd, late), None);
  }

  lemma NotNewYear(m: int)
    requires 5 * 1440 <= m < 12 * 1440 || 13 * 1440 <= m <= 27 * 1440
    ensures !(YearEnd(m).day == 1 && YearEnd(m).month == 1)
  {
  }

  /** The source's loop over the minutes of the horizon. */
  method NextCronDate(parts: seq<string>, cal: Calendar, from: int) returns (r: Option<int>)
    ensures r == NextCron(parts, cal, from)
    ensures r.Some? ==> from < r.value && MatchesAt(parts, cal, r.value) && NoneBetween(parts, cal, from, r.value)
    ensures r.None? <==> NoneBetween(parts, cal, from, Start(from) + HORIZON)
    ensures forall fields :: IsExpression(fields) && parts == FieldTexts(fields) ==> IsNextHit(fields, cal, from, r)
  {
    NextCronIsLeast(parts, cal, from);
    forall fields | IsExpression(fields) && parts == FieldTexts(fields)
      ensures IsNextHit(fields, cal, from, NextCron(parts, cal, from))
    {
      NextCronIsNextHit(fields, cal, from);
    }
    if |parts| != 5 {
      return None;
    }
    var start := Start(from);
    var end := start + HORIZON;
    var t := start;
    while t < end
      invariant t % MINUTE == 0
      invariant Search(parts, cal, t, end) == NextCron(parts, cal, from)
    {
      if Matches(parts, cal(t / MINUTE)) {
        return Some(t);
      }
      t := t + MINUTE;
    }
    r := None;
  }

  /** One such field makes the whole expression match never. */
  lemma BrokenListNeverRuns(parts: seq<string>, cal: Calendar, from: int, field: nat, items: seq<Field>, k: nat)
    requires |parts| == 5 && field < 5 && parts[field] == ListText(items)
    requires |items| >= 2 && AllItems(items) && k < |items| && !HasStep(items[0]) && (HasDash(items[k]) || HasStep(items[k]))
    ensures NextCron(parts, cal, from) == None
  {
    NextCronIsLeast(parts, cal, from);
    var r := NextCron(parts, cal, from);
    if r.Some? {
      var f := cal(r.value / MINUTE);
      BrokenListMatchesNothing(items, k, [f.minute, f.hour, f.day, f.month, f.weekday][field]);
    }
  }
}
