/**
 What several models share.

 Optional values, and the bytes that travel over sockets and files; the error codes of the proxies, and the
 rectangles of screen elements. Besides these, a few facts about lists and about division that proofs need in
 more than one place.
 */
module Common {

  datatype Option<+T> = None | Some(value: T)

  type byte = b: int | 0 <= b < 256

  type Bytes = seq<byte>

  /** What a proxy failure is classified as. */
  datatype ErrorCode = Unreachable | Timeout | AuthFailed | Rejected | TargetFailed | Protocol | Busy

  /** An element's rectangle on the screen. */
  datatype Bounds = Bounds(left: int, top: int, right: int, bottom: int) {
    function Width(): int { right - left }
    function Height(): int { bottom - top }
  }

  /** All pieces of a list, one after the other. */
  function Flatten<T>(pieces: seq<seq<T>>): seq<T> {
    if pieces == [] then [] else pieces[0] + Flatten(pieces[1..])
  }

  lemma Assoc<T>(a: seq<T>, b: seq<T>, c: seq<T>)
    ensures a + b + c == a + (b + c)
  {
  }

  /** Quotient and remainder are determined by what they add up to. */
  lemma DivMod(a: int, n: nat, q: int, r: nat)
    requires r < n && a == n * q + r
    ensures a / n == q && a % n == r
  {
    SameQuotient(n, a / n, a % n, q, r);
  }

  lemma SameQuotient(n: nat, q: int, r: nat, q': int, r': nat)
    requires r < n && r' < n && n * q + r == n * q' + r'
    ensures q == q' && r == r'
  {
    AtLeastOnce(n, q - q');
    AtLeastOnce(n, q' - q);
    assert n * (q - q') == r' - r && n * (q' - q) == r - r';
  }

  lemma AtLeastOnce(n: nat, d: int)
    ensures d > 0 ==> n * d >= n
  {
    if d > 1 {
      AtLeastOnce(n, d - 1);
    }
  }
}
