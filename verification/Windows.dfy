/**
 Daily publish windows: normalising the list and refusing windows too close for their jitter.

 Windows repeat every day, and each post is moved by a random offset of at most the jitter, early or late. What
 the check is for is therefore said about the endless timeline of moved occurrences, not about the list.
 */
module Windows {
  import opened Common
  import opened Text

  const DAY := 1440

  // ── Times of day as text ─────────────────────────────────────────────────

  /** One or two digits up to 23, a colon, two digits up to 59. */
  predicate IsTime(t: string) {
    var p := Split(t, ':');
    && |p| == 2 && AllDigits(p[0]) && AllDigits(p[1])
    && |p[0]| <= 2 && Decimal(p[0]) <= 23
    && |p[1]| == 2 && Decimal(p[1]) <= 59
  }

  function ToMinutes(t: string): (m: nat)
    requires IsTime(t)
    ensures m < DAY
  {
    var p := Split(t, ':');
    Decimal(p[0]) * 60 + Decimal(p[1])
  }

  function Pad(n: nat): string {
    var s := DecimalText(n);
    if |s| < 2 then "0" + s else s
  }

  function TimeText(m: nat): string {
    Pad(m / 60) + ":" + Pad(m % 60)
  }

  lemma PadReadsBack(n: nat)
    requires n < 100
    ensures |Pad(n)| == 2 && AllDigits(Pad(n)) && Decimal(Pad(n)) == n
  {
    DecimalReadsBack(n);
    var s := DecimalText(n);
    if n < 10 {
      assert Pad(n) == "0" + s && |s| == 1;
      assert (("0" + s)[..1]) == "0" && ("0" + s)[1] == s[0] && s[..0] == "" && "0"[..0] == "";
    } else {
      assert |DecimalText(n / 10)| == 1;
    }
  }

  lemma OneDigit(s: string)
    requires AllDigits(s) && |s| == 1
    ensures Decimal(s) < 10 && s == DecimalText(Decimal(s))
  {
    assert s[0] in s && s[..0] == "";
    var d := s[0] as int - '0' as int;
    assert Decimal(s) == d && '0' + d as char == s[0];
  }

  /** A text of one or two digits is its number printed, perhaps with a zero in front. */
  lemma OneOrTwoDigits(s: string)
    requires AllDigits(s) && |s| <= 2
    ensures Decimal(s) < 100 && (|s| == 2 ==> s == Pad(Decimal(s))) && (|s| == 1 ==> s == DecimalText(Decimal(s)))
  {
    if |s| == 1 {
      OneDigit(s);
    } else {
      assert s[0] in s && s[1] in s && s == [s[0]] + [s[1]];
      OneDigit([s[0]]);
      OneDigit([s[1]]);
      var e, d := Decimal([s[0]]), Decimal([s[1]]);
      assert s[..1] == [s[0]] && [s[1]][..0] == "";
      assert Decimal(s) == 10 * e + d;
      TwoDigits(e, d);
    }
  }

  lemma TwoDigits(e: nat, d: nat)
    requires e < 10 && d < 10
    ensures Pad(10 * e + d) == DecimalText(e) + DecimalText(d)
  {
    var n := 10 * e + d;
    DivMod(n, 10, e, d);
    SmallText(d);
    SmallText(e);
    if e > 0 {
      assert DecimalText(n) == DecimalText(e) + DecimalText(d);
    } else {
      assert DecimalText(e) == "0" && n == d;
    }
  }

  lemma SmallText(d: nat)
    requires d < 10
    ensures DecimalText(d) == ['0' + d as char]
  {
  }

  /** The valid times are those of a day's hours and minutes, with or without a zero in front of the hour. */
  lemma TimesAre(t: string)
    ensures IsTime(t) <==>
      exists h, m :: 0 <= h < 24 && 0 <= m < 60 && (t == Pad(h) + ":" + Pad(m) || t == DecimalText(h) + ":" + Pad(m))
    ensures IsTime(t) ==> t == Pad(ToMinutes(t) / 60) + ":" + Pad(ToMinutes(t) % 60)
                          || t == DecimalText(ToMinutes(t) / 60) + ":" + Pad(ToMinutes(t) % 60)
  {
    if IsTime(t) {
      var p := Split(t, ':');
      JoinSplit(t, ':');
      OneOrTwoDigits(p[0]);
      OneOrTwoDigits(p[1]);
      assert Join(p, ':') == p[0] + [':'] + Join(p[1..], ':');
      assert t == p[0] + ":" + p[1];
      DivMod(ToMinutes(t), 60, Decimal(p[0]), Decimal(p[1]));
    }
    if h, m :| 0 <= h < 24 && 0 <= m < 60 && (t == Pad(h) + ":" + Pad(m) || t == DecimalText(h) + ":" + Pad(m)) {
      PadReadsBack(h);
      PadReadsBack(m);
      DecimalReadsBack(h);
      TwoParts(Pad(h), Pad(m));
      TwoParts(DecimalText(h), Pad(m));
    }
  }

  lemma TwoParts(a: string, b: string)
    requires ':' !in a && ':' !in b
    ensures Split(a + ":" + b, ':') == [a, b]
  {
    assert Join([a, b], ':') == a + ":" + b;
    SplitJoin([a, b], ':');
  }

  /** A printed time is a valid time and reads back as the same minute. */
  lemma TimeReadsBack(m: nat)
    requires m < DAY
    ensures IsTime(TimeText(m)) && ToMinutes(TimeText(m)) == m
  {
    PadReadsBack(m / 60);
    PadReadsBack(m % 60);
    var parts := [Pad(m / 60), Pad(m % 60)];
    assert Join(parts, ':') == TimeText(m);
    SplitJoin(parts, ':');
  }

  // ── Normalising ──────────────────────────────────────────────────────────

  predicate Ascending(s: seq<nat>) {
    forall i, j :: 0 <= i < j < |s| ==> s[i] < s[j]
  }

  lemma HeadIsLeast(s: seq<nat>)
    requires Ascending(s) && s != []
    ensures Ascending(s[1..])
    ensures forall y :: y in s <==> y == s[0] || y in s[1..]
    ensures forall y :: y in s[1..] ==> s[0] < y
  {
    assert s == [s[0]] + s[1..];
    forall y | y in s[1..] ensures s[0] < y {
      var i :| 0 <= i < |s[1..]| && s[1..][i] == y;
      assert s[i + 1] == y;
    }
  }

  function Insert(x: nat, s: seq<nat>): (r: seq<nat>)
    requires Ascending(s)
    ensures Ascending(r)
    ensures forall y :: y in r <==> y == x || y in s
  {
    if s == [] || x < s[0] then [x] + s
    else if x == s[0] then s
    else
      var rest := Insert(x, s[1..]);
      HeadIsLeast(s);
      assert forall i :: 0 <= i < |rest| ==> rest[i] in rest;
      [s[0]] + rest
  }

  /** The distinct values in ascending order. */
  function SortedSet(s: seq<nat>): (r: seq<nat>)
    ensures Ascending(r)
    ensures forall y :: y in r <==> y in s
  {
    if s == [] then [] else Insert(s[0], SortedSet(s[1..]))
  }

  lemma {:induction false} AscendingIsUnique(a: seq<nat>, b: seq<nat>)
    requires Ascending(a) && Ascending(b) && forall y :: y in a <==> y in b
    ensures a == b
  {
    assert a != [] ==> a[0] in a;
    assert b != [] ==> b[0] in b;
    if a != [] && b != [] {
      assert a[0] == b[0];
      forall y ensures y in a[1..] <==> y in b[1..] {
        assert y in a <==> y == a[0] || y in a[1..];
        assert y in b <==> y == b[0] || y in b[1..];
        assert forall i :: 0 < i < |a| ==> a[i] != a[0];
        assert forall i :: 0 < i < |b| ==> b[i] != b[0];
      }
      AscendingIsUnique(a[1..], b[1..]);
    }
  }

  predicate AllTimes(times: seq<string>) {
    forall t :: t in times ==> IsTime(t)
  }

  function AllMinutes(times: seq<string>): (r: seq<nat>)
    requires AllTimes(times)
    ensures |r| == |times| && forall i :: 0 <= i < |times| ==> r[i] == ToMinutes(times[i]) && r[i] < DAY
  {
    seq(|times|, i requires 0 <= i < |times| => assert times[i] in times; ToMinutes(times[i]))
  }

  function AllTexts(mins: seq<nat>): (r: seq<string>)
    ensures |r| == |mins| && forall i :: 0 <= i < |mins| ==> r[i] == TimeText(mins[i])
  {
    seq(|mins|, i requires 0 <= i < |mins| => TimeText(mins[i]))
  }

  // ── The check ────────────────────────────────────────────────────────────

  /** Minutes to the next window, the last one's next being the first one of the following day. */
  function Gap(mins: seq<nat>, i: nat): int
    requires i < |mins|
  {
    if i == |mins| - 1 then mins[0] + DAY - mins[i] else mins[i + 1] as int - mins[i] as int
  }

  /** The smallest of the first `n` gaps. */
  function MinGap(mins: seq<nat>, n: nat): (g: int)
    requires 1 <= n <= |mins|
    ensures forall i :: 0 <= i < n ==> g <= Gap(mins, i)
    ensures exists i :: 0 <= i < n && g == Gap(mins, i)
  {
    if n == 1 then Gap(mins, 0)
    else
      var g := MinGap(mins, n - 1);
      if Gap(mins, n - 1) < g then Gap(mins, n - 1) else g
  }

  /** `tooClose` and `warning` carry the smallest gap that the messages name. */
  datatype Checked = Checked(times: seq<string>, tooClose: Option<int>, warning: Option<int>)

  function CheckMinutes(mins: seq<nat>, jitter: nat): Checked {
    var norm := AllTexts(mins);
    if |mins| <= 1 then Checked(norm, None, None)
    else
      var minGap := MinGap(mins, |mins|);
      if minGap <= 2 * jitter + 1 then Checked(norm, Some(minGap), None)
      else Checked(norm, None, if minGap < 180 then Some(minGap) else None)
  }

  function CheckWindows(times: seq<string>, jitter: nat): Checked
    requires AllTimes(times)
  {
    CheckMinutes(SortedSet(AllMinutes(times)), jitter)
  }

  /** The windows of a list of times, in order. */
  function WindowsOf(times: seq<string>): (mins: seq<nat>)
    requires AllTimes(times)
    ensures Ascending(mins) && forall m :: m in mins ==> m < DAY
  {
    SortedSet(AllMinutes(times))
  }

  // ── The timeline ─────────────────────────────────────────────────────────

  /** Occurrence `k` on the endless timeline, counted from the first window of day zero. */
  function Occurrence(mins: seq<nat>, k: int): int
    requires mins != []
  {
    mins[k % |mins|] + DAY * (k / |mins|)
  }

  function GapSum(mins: seq<nat>, n: nat): int
    requires n <= |mins|
  {
    if n == 0 then 0 else GapSum(mins, n - 1) + Gap(mins, n - 1)
  }

  lemma {:induction false} PartialGapSum(mins: seq<nat>, n: nat)
    requires n < |mins|
    ensures GapSum(mins, n) == mins[n] as int - mins[0] as int
  {
    if n > 0 {
      PartialGapSum(mins, n - 1);
    }
  }

  /** The gaps go once around the day. */
  lemma GapsFillTheDay(mins: seq<nat>)
    requires mins != []
    ensures GapSum(mins, |mins|) == DAY
  {
    PartialGapSum(mins, |mins| - 1);
  }

  /** Consecutive occurrences are one gap apart, also across midnight. */
  lemma NextOccurrence(mins: seq<nat>, k: int)
    requires mins != []
    ensures Occurrence(mins, k + 1) == Occurrence(mins, k) + Gap(mins, k % |mins|)
  {
    var n := |mins|;
    assert k == n * (k / n) + k % n;
    if k % n == n - 1 {
      DivMod(k + 1, n, k / n + 1, 0);
      assert n * (k / n + 1) == n * (k / n) + n;
    } else {
      DivMod(k + 1, n, k / n, k % n + 1);
    }
  }

  lemma {:induction false} OccurrencesApart(mins: seq<nat>, a: int, b: int)
    requires mins != [] && a < b && MinGap(mins, |mins|) >= 0
    ensures Occurrence(mins, b) - Occurrence(mins, a) >= MinGap(mins, |mins|)
    decreases b - a
  {
    NextOccurrence(mins, b - 1);
    if a < b - 1 {
      OccurrencesApart(mins, a, b - 1);
    }
  }

  predicate Within(offset: real, jitter: nat) {
    -(jitter as real) <= offset <= jitter as real
  }

  /** The list passes the check as it is, with nothing too close. */
  predicate Accepted(times: seq<string>, jitter: nat)
    requires AllTimes(times)
  {
    CheckWindows(times, jitter).tooClose == None
  }

  /** Two occurrences, each moved by its own offset, are at least two minutes apart and in order. */
  predicate Apart(mins: seq<nat>, a: int, b: int, ja: real, jb: real)
    requires mins != []
  {
    Occurrence(mins, b) as real + jb - (Occurrence(mins, a) as real + ja) >= 2.0
  }

  /**
   Accepted windows never collide: any two occurrences, on any days, keep their order and stay at least
   two minutes apart whatever their jitters.
   */
  lemma AcceptedNeverCollide(times: seq<string>, jitter: nat, a: int, b: int, ja: real, jb: real)
    requires AllTimes(times) && a < b && Within(ja, jitter) && Within(jb, jitter)
    ensures |WindowsOf(times)| >= 2 && Accepted(times, jitter) ==> Apart(WindowsOf(times), a, b, ja, jb)
  {
    var mins := WindowsOf(times);
    if |mins| >= 2 && Accepted(times, jitter) {
      OccurrencesApart(mins, a, b);
      assert Occurrence(mins, b) - Occurrence(mins, a) >= 2 * jitter + 2;
    }
  }

  lemma RefusedGap(times: seq<string>, jitter: nat)
    requires AllTimes(times) && |WindowsOf(times)| >= 2 && !Accepted(times, jitter)
    ensures MinGap(WindowsOf(times), |WindowsOf(times)|) <= 2 * jitter + 1
  {
  }

  /** And no others are accepted: refused windows have two occurrences that jitter can bring closer. */
  lemma RefusedCanCollide(times: seq<string>, jitter: nat) returns (a: int, ja: real, jb: real)
    requires AllTimes(times) && |WindowsOf(times)| >= 2 && !Accepted(times, jitter)
    ensures Within(ja, jitter) && Within(jb, jitter) && !Apart(WindowsOf(times), a, a + 1, ja, jb)
  {
    RefusedGap(times, jitter);
    a := NarrowestGap(WindowsOf(times));
    ja, jb := jitter as real, -(jitter as real);
    TightGapCollides(WindowsOf(times), a, jitter);
  }

  lemma NarrowestGap(mins: seq<nat>) returns (i: nat)
    requires mins != []
    ensures i < |mins| && Gap(mins, i) == MinGap(mins, |mins|)
  {
    i :| 0 <= i < |mins| && MinGap(mins, |mins|) == Gap(mins, i);
  }

  lemma GapToNext(mins: seq<nat>, i: nat)
    requires i < |mins|
    ensures Occurrence(mins, i + 1) - Occurrence(mins, i) == Gap(mins, i)
  {
    DivMod(i, |mins|, 0, i);
    NextOccurrence(mins, i);
  }

  lemma TightGapCollides(mins: seq<nat>, i: nat, jitter: nat)
    requires i < |mins| && Gap(mins, i) <= 2 * jitter + 1
    ensures !Apart(mins, i, i + 1, jitter as real, -(jitter as real))
  {
    GapToNext(mins, i);
    CloserThanTwo(Occurrence(mins, i + 1), Occurrence(mins, i), jitter);
  }

  lemma CloserThanTwo(later: int, earlier: int, jitter: nat)
    requires later - earlier <= 2 * jitter + 1
    ensures later as real + -(jitter as real) - (earlier as real + jitter as real) < 2.0
  {
  }

  /**
   The farm keeps three hours between two posts of an account: there is a warning exactly if the windows are
   accepted and two of them, one after the other around the day, are closer; it names the smallest gap.
   */
  lemma WarnedIff(times: seq<string>, jitter: nat)
    requires AllTimes(times)
    ensures var mins, r := WindowsOf(times), CheckWindows(times, jitter);
            && (r.warning.Some? <==>
                  |mins| >= 2 && Accepted(times, jitter) && exists i :: 0 <= i < |mins| && Gap(mins, i) < 3 * 60)
            && (r.warning.Some? ==> IsSmallestGap(mins, r.warning.value))
            && (r.tooClose.Some? ==> IsSmallestGap(mins, r.tooClose.value))
  {
    var mins := WindowsOf(times);
    if |mins| >= 2 {
      SmallestGap(mins);
    }
  }

  ghost predicate IsSmallestGap(mins: seq<nat>, g: int) {
    (forall i :: 0 <= i < |mins| ==> g <= Gap(mins, i)) && exists i :: 0 <= i < |mins| && Gap(mins, i) == g
  }

  lemma SmallestGap(mins: seq<nat>)
    requires mins != []
    ensures IsSmallestGap(mins, MinGap(mins, |mins|))
  {
  }

  /** The printed windows are valid times and denote the same minutes. */
  lemma PrintedWindowsReadBack(mins: seq<nat>)
    requires forall m :: m in mins ==> m < DAY
    ensures AllTimes(AllTexts(mins)) && AllMinutes(AllTexts(mins)) == mins
  {
    var texts := AllTexts(mins);
    forall i | 0 <= i < |mins| ensures IsTime(texts[i]) && ToMinutes(texts[i]) == mins[i] {
      assert mins[i] in mins;
      TimeReadsBack(mins[i]);
    }
  }

  /** Checking a checked list again changes nothing: same times, same verdict, same warning. */
  lemma {:induction false} CheckIsIdempotent(times: seq<string>, jitter: nat)
    requires AllTimes(times)
    ensures var r := CheckWindows(times, jitter);
            AllTimes(r.times) && CheckWindows(r.times, jitter) == r
  {
    var mins := WindowsOf(times);
    PrintedWindowsReadBack(mins);
    AscendingIsUnique(SortedSet(mins), mins);
  }

  /** The order and the repetitions of the input do not matter. */
  lemma {:induction false} OnlyTheSetMatters(times: seq<string>, others: seq<string>, jitter: nat)
    requires AllTimes(times) && AllTimes(others)
    requires forall m :: m in AllMinutes(times) <==> m in AllMinutes(others)
    ensures CheckWindows(times, jitter) == CheckWindows(others, jitter)
  {
    AscendingIsUnique(WindowsOf(times), WindowsOf(others));
  }
}
