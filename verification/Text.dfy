/**
 Texts, as the JavaScript built-ins treat those that occur here.

 Splitting at a separator undoes joining. Decimal and hexadecimal numbers are read digit by digit from the
 right; `ParseHex` is `parseInt(s, 16)`, which stops at the first character that is no digit. Changing letters
 to lower case does not change a hexadecimal number.
 */
module Text {
  import opened Common

  /** Pieces between single separators. */
  function Split(s: string, sep: char): (r: seq<string>)
    ensures r != []
  {
    if s == "" then [""]
    else
      var rest := Split(s[1..], sep);
      if s[0] == sep then [""] + rest else [[s[0]] + rest[0]] + rest[1..]
  }

  function Join(parts: seq<string>, sep: char): string {
    if parts == [] then ""
    else if |parts| == 1 then parts[0]
    else parts[0] + [sep] + Join(parts[1..], sep)
  }

  lemma {:induction false} SplitPiece(piece: string, rest: string, sep: char)
    requires sep !in piece
    ensures Split(piece, sep) == [piece]
    ensures Split(piece + [sep] + rest, sep) == [piece] + Split(rest, sep)
  {
    if piece == "" {
      assert ([sep] + rest)[1..] == rest;
      assert piece + [sep] + rest == [sep] + rest;
    } else {
      SplitPiece(piece[1..], rest, sep);
      assert (piece + [sep] + rest)[1..] == piece[1..] + [sep] + rest;
      assert [piece[0]] + piece[1..] == piece;
    }
  }

  /** Splitting undoes joining. */
  lemma {:induction false} SplitJoin(parts: seq<string>, sep: char)
    requires parts != [] && forall p :: p in parts ==> sep !in p
    ensures Split(Join(parts, sep), sep) == parts
  {
    if |parts| == 1 {
      SplitPiece(parts[0], "", sep);
    } else {
      SplitPiece(parts[0], Join(parts[1..], sep), sep);
      SplitJoin(parts[1..], sep);
    }
  }

  /** And joining undoes splitting. */
  lemma {:induction false} JoinSplit(s: string, sep: char)
    ensures Join(Split(s, sep), sep) == s
  {
    if s != "" {
      JoinSplit(s[1..], sep);
      var rest := Split(s[1..], sep);
      assert s == [s[0]] + s[1..];
      if s[0] == sep {
        assert ([""] + rest)[1..] == rest;
      } else {
        assert ([[s[0]] + rest[0]] + rest[1..])[1..] == rest[1..];
      }
    }
  }

  // ── Decimal ──────────────────────────────────────────────────────────────

  predicate IsDigit(c: char) {
    '0' <= c <= '9'
  }

  predicate AllDigits(s: string) {
    s != "" && forall c :: c in s ==> IsDigit(c)
  }

  /** `Number(s)` for a text of decimal digits. */
  function Decimal(s: string): nat
    requires forall c :: c in s ==> IsDigit(c)
  {
    if s == "" then 0
    else
      assert s[|s| - 1] in s && IsDigit(s[|s| - 1]);
      10 * Decimal(s[..|s| - 1]) + (s[|s| - 1] as int - '0' as int)
  }

  function DecimalText(n: nat): (s: string)
    ensures AllDigits(s)
  {
    var last := ['0' + (n % 10) as char];
    if n < 10 then last else DecimalText(n / 10) + last
  }

  lemma {:induction false} DecimalReadsBack(n: nat)
    ensures Decimal(DecimalText(n)) == n
  {
    var s := DecimalText(n);
    if n >= 10 {
      DecimalReadsBack(n / 10);
      assert s[..|s| - 1] == DecimalText(n / 10);
    } else {
      assert s[..|s| - 1] == "";
    }
  }

  // ── Hexadecimal ──────────────────────────────────────────────────────────

  predicate IsHex(c: char) {
    IsDigit(c) || 'a' <= c <= 'f' || 'A' <= c <= 'F'
  }

  function HexDigit(c: char): nat
    requires IsHex(c)
  {
    if IsDigit(c) then c as int - '0' as int
    else if 'a' <= c <= 'f' then c as int - 'a' as int + 10
    else c as int - 'A' as int + 10
  }

  function Hex(s: string): nat
    requires forall c :: c in s ==> IsHex(c)
  {
    if s == "" then 0 else 16 * Hex(s[..|s| - 1]) + HexDigit(s[|s| - 1])
  }

  const HEX_DIGITS := "0123456789abcdef"
  const HEX_CAPITALS := "0123456789ABCDEF"

  /** The hexadecimal digits, in either case, stand for their places in the list. */
  lemma HexDigitsAre(c: char)
    ensures IsHex(c) <==> c in HEX_DIGITS || c in HEX_CAPITALS
    ensures forall i :: 0 <= i < 16 && c in {HEX_DIGITS[i], HEX_CAPITALS[i]} ==> IsHex(c) && HexDigit(c) == i
  {
    if IsHex(c) {
      assert c == if c <= '9' || c >= 'a' then HEX_DIGITS[HexDigit(c)] else HEX_CAPITALS[HexDigit(c)];
    }
  }

  /** The longest prefix of hexadecimal digits. */
  function HexPrefix(s: string): (r: string)
    ensures forall c :: c in r ==> IsHex(c)
  {
    if s == "" || !IsHex(s[0]) then "" else [s[0]] + HexPrefix(s[1..])
  }

  /** `parseInt(s, 16)` for a text without blanks, sign or prefix; nothing where JavaScript gives NaN. */
  function ParseHex(s: string): Option<nat> {
    var digits := HexPrefix(s);
    if digits == "" then None else Some(Hex(digits))
  }

  lemma {:induction false} HexPrefixOfHex(s: string)
    requires forall c :: c in s ==> IsHex(c)
    ensures HexPrefix(s) == s
  {
    if s != "" {
      HexPrefixOfHex(s[1..]);
    }
  }

  function Lower(c: char): char {
    if 'A' <= c <= 'Z' then (c as int - 'A' as int + 'a' as int) as char else c
  }

  function LowerAll(s: string): (r: string)
    ensures |r| == |s| && forall i :: 0 <= i < |s| ==> r[i] == Lower(s[i])
  {
    seq(|s|, i requires 0 <= i < |s| => Lower(s[i]))
  }

  lemma {:induction false} HexIgnoresCase(s: string)
    requires forall c :: c in s ==> IsHex(c)
    ensures forall c :: c in LowerAll(s) ==> IsHex(c)
    ensures Hex(LowerAll(s)) == Hex(s)
  {
    if s != "" {
      var n := |s| - 1;
      HexIgnoresCase(s[..n]);
      assert LowerAll(s)[..n] == LowerAll(s[..n]);
      assert s[n] in s;
    }
  }

  lemma {:induction false} HexBound(s: string)
    requires |s| <= 4 && forall c :: c in s ==> IsHex(c)
    ensures Hex(s) < 0x10000
    ensures |s| <= 3 ==> Hex(s) < 0x1000
    ensures |s| <= 2 ==> Hex(s) < 0x100
    ensures |s| <= 1 ==> Hex(s) < 0x10
  {
    if s != "" {
      HexBound(s[..|s| - 1]);
      assert s[|s| - 1] in s;
    }
  }
}
