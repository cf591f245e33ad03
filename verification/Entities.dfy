/**
 XML character references in the attributes of a screen dump (XML 1.0 section 4.6), decoded by a chain of
 global replacements whose order matters.

 Escaping is the specification; of the two decoders one undoes it always, the other on some texts only.
 */
module Entities {

  predicate StartsWith(s: string, p: string) {
    |p| <= |s| && forall i :: 0 <= i < |p| ==> s[i] == p[i]
  }

  predicate Contains(s: string, p: string) {
    StartsWith(s, p) || (s != "" && Contains(s[1..], p))
  }

  /** `s.replace(/pat/g, c)`. */
  function Replace(s: string, pat: string, c: char): string
    requires pat != ""
  {
    if s == "" then ""
    else if StartsWith(s, pat) then [c] + Replace(s[|pat|..], pat, c)
    else [s[0]] + Replace(s[1..], pat, c)
  }

  /** The references in the order in which the screen reader replaces them. */
  const ORDER: seq<(string, char)> :=
    [("&lt;", '<'), ("&gt;", '>'), ("&quot;", '"'), ("&#10;", '\n'), ("&apos;", '\''), ("&amp;", '&')]

  function DecodeFrom(s: string, k: nat): string
    requires k <= |ORDER|
    decreases |ORDER| - k
  {
    if k == |ORDER| then s else DecodeFrom(Replace(s, ORDER[k].0, ORDER[k].1), k + 1)
  }

  /** `attr`'s decoding of a raw value. */
  function Decode(s: string): string {
    DecodeFrom(s, 0)
  }

  /** Position of a character in the order; the length of the order if it is written as itself. */
  function Rank(c: char): nat {
    if c == '<' then 0 else if c == '>' then 1 else if c == '"' then 2 else if c == '\n' then 3
    else if c == '\'' then 4 else if c == '&' then 5 else 6
  }

  /** A character as it stands after the first `k` replacements. */
  function Encoded(c: char, k: nat): string {
    if k <= Rank(c) < |ORDER| then ORDER[Rank(c)].0 else [c]
  }

  function EncodedAll(s: string, k: nat): string {
    if s == "" then "" else Encoded(s[0], k) + EncodedAll(s[1..], k)
  }

  /** The text as the dump writes it. */
  function Escape(s: string): string {
    EncodedAll(s, 0)
  }

  /** A pattern that starts with '&' is not found inside text without '&'. */
  lemma {:induction false} ReplaceSkips(a: string, rest: string, pat: string, c: char)
    requires pat != "" && pat[0] == '&' && '&' !in a
    ensures Replace(a + rest, pat, c) == a + Replace(rest, pat, c)
  {
    if a == "" {
      assert a + rest == rest;
    } else {
      assert (a + rest)[1..] == a[1..] + rest;
      assert (a + rest)[0] == a[0] && a[0] in a;
      ReplaceSkips(a[1..], rest, pat, c);
    }
  }

  /** One reference is not the beginning of another, whatever follows. */
  lemma ReferencesDiffer(j: nat, k: nat, rest: string)
    requires j < |ORDER| && k < |ORDER| && j != k
    ensures !StartsWith(ORDER[j].0 + rest, ORDER[k].0)
  {
    var a, b := ORDER[j].0, ORDER[k].0;
    assert |a| >= 4 && |b| >= 4 && (a[1] != b[1] || a[2] != b[2]);
    assert (a + rest)[1] == a[1] && (a + rest)[2] == a[2];
  }

  lemma ReferenceShape(k: nat)
    requires k < |ORDER|
    ensures ORDER[k].0 != "" && ORDER[k].0[0] == '&' && '&' !in ORDER[k].0[1..]
    ensures Rank(ORDER[k].1) == k && '"' !in ORDER[k].0 && '<' !in ORDER[k].0 && '>' !in ORDER[k].0 && '\n' !in ORDER[k].0
  {
  }

  /** A reference that the pattern does not match passes unchanged. */
  lemma OtherReferencePasses(j: nat, k: nat, rest: string)
    requires j < |ORDER| && k < |ORDER| && j != k
    ensures Replace(ORDER[j].0 + rest, ORDER[k].0, ORDER[k].1) == ORDER[j].0 + Replace(rest, ORDER[k].0, ORDER[k].1)
  {
    var a := ORDER[j].0;
    ReferenceShape(j);
    ReferenceShape(k);
    ReferencesDiffer(j, k, rest);
    assert (a + rest)[1..] == a[1..] + rest;
    ReplaceSkips(a[1..], rest, ORDER[k].0, ORDER[k].1);
    assert [a[0]] + a[1..] == a;
  }

  lemma ReferenceReplaced(k: nat, rest: string)
    requires k < |ORDER|
    ensures Replace(ORDER[k].0 + rest, ORDER[k].0, ORDER[k].1) == [ORDER[k].1] + Replace(rest, ORDER[k].0, ORDER[k].1)
  {
    ReferenceShape(k);
    assert (ORDER[k].0 + rest)[|ORDER[k].0|..] == rest;
  }

  /** Each replacement undoes the escaping of its own character and of nothing else. */
  lemma {:induction false} OneReplacement(s: string, k: nat)
    requires k < |ORDER|
    ensures Replace(EncodedAll(s, k), ORDER[k].0, ORDER[k].1) == EncodedAll(s, k + 1)
  {
    if s != "" {
      var c, rest := s[0], EncodedAll(s[1..], k);
      OneReplacement(s[1..], k);
      ReferenceShape(k);
      if Rank(c) == k {
        ReferenceReplaced(k, rest);
      } else if k < Rank(c) < |ORDER| {
        OtherReferencePasses(Rank(c), k, rest);
      } else {
        ReplaceSkips([c], rest, ORDER[k].0, ORDER[k].1);
      }
    }
  }

  lemma {:induction false} DecodeRemaining(s: string, k: nat)
    requires k <= |ORDER|
    ensures DecodeFrom(EncodedAll(s, k), k) == s
    decreases |ORDER| - k
  {
    if k == |ORDER| {
      NothingEncoded(s);
    } else {
      OneReplacement(s, k);
      DecodeRemaining(s, k + 1);
    }
  }

  lemma {:induction false} NothingEncoded(s: string)
    ensures EncodedAll(s, |ORDER|) == s
  {
    if s != "" {
      NothingEncoded(s[1..]);
    }
  }

  /** Decoding inverts escaping, for every text: `&amp;` comes last, so no reference is decoded twice. */
  lemma DecodeInvertsEscape(s: string)
    ensures Decode(Escape(s)) == s
  {
    DecodeRemaining(s, 0);
  }

  /** Escaped text can stand between quotes inside a tag. */
  lemma {:induction false} EscapeIsSafe(s: string)
    ensures '"' !in Escape(s) && '<' !in Escape(s) && '>' !in Escape(s) && '\n' !in Escape(s)
  {
    if s != "" {
      EscapeIsSafe(s[1..]);
      if Rank(s[0]) < |ORDER| {
        ReferenceShape(Rank(s[0]));
      }
    }
  }

  // ── The other reader ─────────────────────────────────────────────────────

  /** The profile reader knows three references and replaces `&amp;` first. */
  function ProfileDecode(s: string): string {
    Replace(Replace(Replace(s, "&amp;", '&'), "&quot;", '"'), "&#10;", '\n')
  }

  /** The three characters it knows, as they stand after its first `k` replacements. */
  function Stage(c: char, k: nat): string {
    if c == '&' && k < 1 then "&amp;" else if c == '"' && k < 2 then "&quot;" else if c == '\n' && k < 3 then "&#10;"
    else [c]
  }

  function StageAll(s: string, k: nat): string {
    if s == "" then "" else Stage(s[0], k) + StageAll(s[1..], k)
  }

  lemma {:induction false} FirstProfileReplacement(s: string)
    ensures Replace(StageAll(s, 0), "&amp;", '&') == StageAll(s, 1)
  {
    if s != "" {
      var rest := StageAll(s[1..], 0);
      FirstProfileReplacement(s[1..]);
      if s[0] == '&' {
        ReferenceReplaced(5, rest);
      } else if s[0] == '"' {
        OtherReferencePasses(2, 5, rest);
      } else if s[0] == '\n' {
        OtherReferencePasses(3, 5, rest);
      } else {
        ReplaceSkips([s[0]], rest, "&amp;", '&');
      }
    }
  }

  /** Plain letters at the start of a partly decoded text stand at the start of the text itself. */
  lemma {:induction false} PlainPrefix(s: string, k: nat, w: string)
    requires k >= 1 && StartsWith(StageAll(s, k), w)
    requires forall c :: c in w ==> c != '&' && c != '"' && c != '\n'
    ensures StartsWith(s, w)
  {
    if w != "" {
      var all := StageAll(s, k);
      assert all[0] == w[0] && w[0] in w;
      assert Stage(s[0], k) == [s[0]];
      assert all[1..] == StageAll(s[1..], k);
      assert forall c :: c in w[1..] ==> c in w;
      PlainPrefix(s[1..], k, w[1..]);
    }
  }

  lemma {:induction false} LaterProfileReplacement(s: string, k: nat)
    requires k in {1, 2}
    requires !Contains(s, if k == 1 then "&quot;" else "&#10;")
    ensures Replace(StageAll(s, k), if k == 1 then "&quot;" else "&#10;", if k == 1 then '"' else '\n')
         == StageAll(s, k + 1)
  {
    var j := k + 1;
    var pat := ORDER[j].0;
    assert pat == if k == 1 then "&quot;" else "&#10;";
    if s != "" {
      var c, rest := s[0], StageAll(s[1..], k);
      LaterProfileReplacement(s[1..], k);
      if c == ORDER[j].1 {
        ReferenceReplaced(j, rest);
      } else if c == '&' {
        assert ([c] + rest)[1..] == rest;
        if StartsWith([c] + rest, pat) {
          ReferenceShape(j);
          assert StartsWith(rest, pat[1..]) by {
            assert forall i :: 0 <= i < |pat| - 1 ==> rest[i] == ([c] + rest)[i + 1];
          }
          PlainPrefix(s[1..], k, pat[1..]);
          assert false;
        }
      } else if c == '\n' && k == 1 {
        OtherReferencePasses(3, 2, rest);
      } else {
        ReplaceSkips([c], rest, pat, ORDER[j].1);
      }
    }
  }

  lemma {:induction false} ReplacedPrefix(s: string, pat: string, c: char, w: string)
    requires pat != "" && c !in w && StartsWith(Replace(s, pat, c), w)
    ensures StartsWith(s, w)
  {
    if w != "" {
      var r := Replace(s, pat, c);
      assert r[0] == w[0] && w[0] in w;
      assert s != "" && !StartsWith(s, pat);
      assert r[1..] == Replace(s[1..], pat, c);
      assert forall x :: x in w[1..] ==> x in w;
      ReplacedPrefix(s[1..], pat, c, w[1..]);
      assert forall i :: 0 < i < |w| ==> s[i] == s[1..][i - 1] && w[i] == w[1..][i - 1];
    }
  }

  /** A replacement leaves no occurrence of what it replaces and creates no other reference. */
  lemma {:induction false} NoneLeft(s: string, pat: string, c: char, q: string)
    requires pat != "" && q != "" && c !in q
    requires q == pat || !Contains(s, q)
    ensures !Contains(Replace(s, pat, c), q)
  {
    if s == "" {
    } else if StartsWith(s, pat) {
      if q != pat {
        ContainsSuffix(s, |pat|, q);
      }
      NoneLeft(s[|pat|..], pat, c, q);
      var r := Replace(s, pat, c);
      assert r[1..] == Replace(s[|pat|..], pat, c);
      assert r[0] == c && q[0] in q;
    } else {
      NoneLeft(s[1..], pat, c, q);
      var r := Replace(s, pat, c);
      assert r[1..] == Replace(s[1..], pat, c);
      if StartsWith(r, q) {
        ReplacedPrefix(s, pat, c, q);
      }
    }
  }

  lemma {:induction false} ContainsSuffix(s: string, n: nat, q: string)
    requires n <= |s| && !Contains(s, q)
    ensures !Contains(s[n..], q)
  {
    if n > 0 {
      ContainsSuffix(s[1..], n - 1, q);
      assert s[1..][n - 1..] == s[n..];
    }
  }

  lemma {:induction false} NoStageLeft(s: string)
    ensures StageAll(s, 3) == s
  {
    if s != "" {
      NoStageLeft(s[1..]);
    }
  }

  /**
   Even for the three characters it knows, the profile reader inverts escaping exactly on the texts that
   do not themselves contain one of its other two references.
   */
  lemma ProfileDecodeInverts(s: string)
    ensures ProfileDecode(StageAll(s, 0)) == s <==> !Contains(s, "&quot;") && !Contains(s, "&#10;")
  {
    FirstProfileReplacement(s);
    if !Contains(s, "&quot;") && !Contains(s, "&#10;") {
      LaterProfileReplacement(s, 1);
      LaterProfileReplacement(s, 2);
      NoStageLeft(s);
    }
    var second := Replace(StageAll(s, 1), "&quot;", '"');
    NoneLeft(StageAll(s, 1), "&quot;", '"', "&quot;");
    NoneLeft(second, "&#10;", '\n', "&quot;");
    NoneLeft(second, "&#10;", '\n', "&#10;");
  }

  /** The shortest text it gets wrong. */
  lemma ProfileDecodeCounterexample()
    ensures ProfileDecode(StageAll("&#10;", 0)) != "&#10;"
  {
    ProfileDecodeInverts("&#10;");
    assert StartsWith("&#10;", "&#10;");
  }
}
