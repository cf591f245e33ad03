/**
 The grid of posts read from a dump of a profile screen.

 The counted nodes are the view counts below the header, and the percentage of a post that is still being
 uploaded. Each belongs to the nearest node around it that is as wide as a third of the screen, its tile; the
 tiles in reading order are the posts.
 */
module ProfileStats {
  import opened Common

  /**
   A node of the dump. `count` is the number its text or description spells, `percent` the upload
   percentage, `followers` and `pinned` whether its labels say so.
   */
  datatype Node = Node(parent: Option<nat>, bounds: Bounds, count: Option<nat>, percent: Option<nat>,
                       followers: bool, pinned: bool)

  datatype Tile = Tile(views: Option<nat>, pinned: bool)

  datatype Profile = Profile(onProfile: bool, uploading: Option<nat>, tiles: seq<Tile>)

  /** Parents come before their children, as in every parsed dump. */
  ghost predicate Acyclic(nodes: seq<Node>) {
    forall k :: 0 <= k < |nodes| && nodes[k].parent.Some? ==> nodes[k].parent.value < k
  }

  // ── Which nodes are counted, and for which tile ──────────────────────────

  function HeaderBottom(nodes: seq<Node>): (b: int)
    ensures b >= 0 && forall n :: n in nodes && n.followers ==> n.bounds.bottom <= b
    ensures b == 0 || exists n :: n in nodes && n.followers && n.bounds.bottom == b
  {
    if nodes == [] then 0
    else
      var n, b := nodes[|nodes| - 1], HeaderBottom(nodes[..|nodes| - 1]);
      if n.followers && n.bounds.bottom > b then n.bounds.bottom else b
  }

  /** A number or a percentage below the header and above the bottom navigation. */
  predicate Counted(n: Node, headerBottom: int, screenH: int) {
    && (n.count.Some? || n.percent.Some?)
    && n.bounds.top > headerBottom + 20
    && 100 * n.bounds.bottom < 93 * screenH
  }

  function CountsIn(nodes: seq<Node>, headerBottom: int, screenH: int, n: nat): (r: seq<nat>)
    requires n <= |nodes|
    ensures forall k: nat :: k in r <==> k < n && Counted(nodes[k], headerBottom, screenH)
    ensures forall i, j :: 0 <= i < j < |r| ==> r[i] < r[j]
  {
    if n == 0 then []
    else
      var before := CountsIn(nodes, headerBottom, screenH, n - 1);
      assert forall i :: 0 <= i < |before| ==> before[i] in before;
      before + if Counted(nodes[n - 1], headerBottom, screenH) then [n - 1] else []
  }

  /** About a third of the screen wide, and not flat. */
  predicate IsTile(b: Bounds, screenW: int) {
    && -3 * screenW < 30 * b.Width() - 10 * screenW < 3 * screenW
    && 5 * b.Height() > screenW
  }

  /** A tile is as wide as a third of the screen, give or take three tenths of that, and higher than six tenths of it. */
  lemma TileIsAThird(b: Bounds, screenW: int)
    ensures var third, w, h := screenW as real / 3.0, b.Width() as real, b.Height() as real;
            IsTile(b, screenW) <==> -(third * 0.3) < w - third < third * 0.3 && h > third * 0.6
  {
  }

  /** What is counted is more than twenty pixels below the header and above the last seven hundredths of the screen. */
  lemma CountedMeans(n: Node, headerBottom: int, screenH: int)
    ensures Counted(n, headerBottom, screenH) <==>
      && (n.count.Some? || n.percent.Some?)
      && n.bounds.top - headerBottom >= 21
      && n.bounds.bottom as real < screenH as real * 0.93
  {
  }

  function TileAbove(nodes: seq<Node>, screenW: int, t: Option<nat>): (r: Option<nat>)
    requires Acyclic(nodes) && (t.Some? ==> t.value < |nodes|)
    ensures r.Some? ==> r.value < |nodes| && IsTile(nodes[r.value].bounds, screenW)
    decreases if t.Some? then t.value + 1 else 0
  {
    if t.None? || IsTile(nodes[t.value].bounds, screenW) then t
    else TileAbove(nodes, screenW, nodes[t.value].parent)
  }

  /** The nearest enclosing tile, or the node itself. */
  function TileOf(nodes: seq<Node>, screenW: int, k: nat): (t: nat)
    requires Acyclic(nodes) && k < |nodes|
    ensures t < |nodes|
  {
    var t := TileAbove(nodes, screenW, nodes[k].parent);
    if t.Some? then t.value else k
  }

  // ── What the grid is ─────────────────────────────────────────────────────

  /** A counted node as the grid sees it: its tile and what it shows. */
  datatype Mark = Mark(tile: nat, at: Bounds, count: Option<nat>, percent: Option<nat>)

  function MarkOf(nodes: seq<Node>, screenW: int, k: nat): (m: Mark)
    requires Acyclic(nodes) && k < |nodes|
    ensures m.tile < |nodes| && m.at == nodes[m.tile].bounds
  {
    var t := TileOf(nodes, screenW, k);
    Mark(t, nodes[t].bounds, nodes[k].count, nodes[k].percent)
  }

  /** The tiles of the counted nodes, in the order they first appear. */
  function TilesSeen(ms: seq<Mark>): (r: seq<nat>)
    ensures forall t :: t in r <==> exists m :: m in ms && m.tile == t
    ensures forall i, j :: 0 <= i < j < |r| ==> r[i] != r[j]
  {
    if ms == [] then []
    else
      var last, before := ms[|ms| - 1], TilesSeen(ms[..|ms| - 1]);
      assert forall m :: m in ms <==> m in ms[..|ms| - 1] || m == last;
      if last.tile in before then before else before + [last.tile]
  }

  /** The first counted node of a tile. */
  function FirstOf(ms: seq<Mark>, t: nat): (m: Option<Mark>)
    ensures m.Some? ==> m.value in ms && m.value.tile == t
    ensures m.None? ==> forall x :: x in ms ==> x.tile != t
  {
    if ms == [] then None
    else
      var last, before := ms[|ms| - 1], FirstOf(ms[..|ms| - 1], t);
      if before.Some? then before else if last.tile == t then Some(last) else None
  }

  predicate StillUploads(ms: seq<Mark>, t: nat) {
    exists m :: m in ms && m.tile == t && m.percent.Some?
  }

  /** A tile's views: none while any of its nodes shows a percentage, else its first number. */
  function ViewsOf(ms: seq<Mark>, t: nat): Option<nat> {
    if StillUploads(ms, t) || FirstOf(ms, t).None? then None else FirstOf(ms, t).value.count
  }

  function FirstPercent(ms: seq<Mark>): (p: Option<nat>)
    ensures p.Some? <==> exists m :: m in ms && m.percent.Some?
  {
    if ms == [] then None
    else
      var last, before := ms[|ms| - 1], FirstPercent(ms[..|ms| - 1]);
      assert forall m :: m in ms <==> m in ms[..|ms| - 1] || m == last;
      if before.Some? then before else last.percent
  }

  // ── Order ────────────────────────────────────────────────────────────────

  /** A tile of the grid: its node, where that is, and its views. */
  datatype Entry = Entry(node: nat, at: Bounds, views: Option<nat>)

  /** Rows of forty pixels, rounded, from top to bottom; inside a row from left to right. */
  predicate NotAfter(a: Bounds, b: Bounds) {
    var rowA, rowB := (a.top + 20) / 40, (b.top + 20) / 40;
    rowA < rowB || (rowA == rowB && a.left <= b.left)
  }

  /** The row nearest to the upper edge; halfway between two it is the lower one. */
  ghost predicate InRow(b: Bounds, row: int) {
    40 * row - 20 <= b.top < 40 * row + 20
  }

  lemma OrderedByRows(a: Bounds, b: Bounds, rowA: int, rowB: int)
    requires InRow(a, rowA) && InRow(b, rowB)
    ensures NotAfter(a, b) <==> rowA < rowB || (rowA == rowB && a.left <= b.left)
  {
  }

  ghost predicate InOrder(es: seq<Entry>) {
    forall i, j :: 0 <= i < j < |es| ==> NotAfter(es[i].at, es[j].at)
  }

  /** Inserts behind everything that need not come after it. */
  function InsertEntry(e: Entry, es: seq<Entry>): (r: seq<Entry>)
    ensures multiset(r) == multiset(es) + multiset{e}
  {
    if es == [] then [e]
    else
      var n := |es| - 1;
      assert es == es[..n] + [es[n]];
      if NotAfter(es[n].at, e.at) then es + [e] else InsertEntry(e, es[..n]) + [es[n]]
  }

  function SortEntries(es: seq<Entry>): (r: seq<Entry>)
    ensures multiset(r) == multiset(es)
  {
    if es == [] then []
    else
      assert es == es[..|es| - 1] + [es[|es| - 1]];
      InsertEntry(es[|es| - 1], SortEntries(es[..|es| - 1]))
  }

  lemma InsertedIsOneOf(e: Entry, es: seq<Entry>, x: Entry)
    requires x in InsertEntry(e, es)
    ensures x == e || x in es
  {
    assert x in multiset(InsertEntry(e, es));
  }

  lemma {:induction false} InsertKeepsOrder(e: Entry, es: seq<Entry>)
    requires InOrder(es)
    ensures InOrder(InsertEntry(e, es))
  {
    if es != [] {
      var n := |es| - 1;
      if !NotAfter(es[n].at, e.at) {
        InsertKeepsOrder(e, es[..n]);
        var front := InsertEntry(e, es[..n]);
        forall i | 0 <= i < |front| ensures NotAfter(front[i].at, es[n].at) {
          InsertedIsOneOf(e, es[..n], front[i]);
        }
      }
    }
  }

  lemma {:induction false} SortIsInOrder(es: seq<Entry>)
    ensures InOrder(SortEntries(es))
  {
    if es != [] {
      SortIsInOrder(es[..|es| - 1]);
      InsertKeepsOrder(es[|es| - 1], SortEntries(es[..|es| - 1]));
    }
  }

  /** `k` is `t` or lies inside it. */
  predicate IsUnder(nodes: seq<Node>, k: nat, t: nat)
    requires Acyclic(nodes) && k < |nodes|
    decreases k
  {
    k == t || (nodes[k].parent.Some? && IsUnder(nodes, nodes[k].parent.value, t))
  }

  predicate IsPinned(nodes: seq<Node>, t: nat)
    requires Acyclic(nodes)
  {
    exists k :: 0 <= k < |nodes| && IsUnder(nodes, k, t) && nodes[k].pinned
  }

  /** From a node to its parent, and so on. */
  ghost predicate LeadsUp(nodes: seq<Node>, path: seq<nat>) {
    && path != []
    && (forall i :: 0 <= i < |path| ==> path[i] < |nodes|)
    && (forall i :: 0 <= i < |path| - 1 ==> nodes[path[i]].parent == Some(path[i + 1]))
  }

  lemma {:induction false} UnderHasPath(nodes: seq<Node>, k: nat, t: nat) returns (path: seq<nat>)
    requires Acyclic(nodes) && k < |nodes| && IsUnder(nodes, k, t)
    ensures LeadsUp(nodes, path) && path[0] == k && path[|path| - 1] == t
    decreases k
  {
    path := [k];
    if k != t {
      var rest := UnderHasPath(nodes, nodes[k].parent.value, t);
      path := [k] + rest;
      assert forall i :: 0 < i < |path| ==> path[i] == rest[i - 1];
    }
  }

  lemma {:induction false} PathIsUnder(nodes: seq<Node>, path: seq<nat>)
    requires Acyclic(nodes) && LeadsUp(nodes, path)
    ensures IsUnder(nodes, path[0], path[|path| - 1])
    decreases |path|
  {
    if |path| > 1 {
      assert nodes[path[0]].parent == Some(path[1]);
      PathIsUnder(nodes, path[1..]);
    }
  }

  /** A tile is pinned exactly if it, or a node that leads up to it, says so. */
  lemma PinnedIff(nodes: seq<Node>, t: nat)
    requires Acyclic(nodes)
    ensures IsPinned(nodes, t) <==>
      exists path :: LeadsUp(nodes, path) && path[|path| - 1] == t && nodes[path[0]].pinned
  {
    if IsPinned(nodes, t) {
      var k :| 0 <= k < |nodes| && IsUnder(nodes, k, t) && nodes[k].pinned;
      var path := UnderHasPath(nodes, k, t);
    }
    if path :| LeadsUp(nodes, path) && path[|path| - 1] == t && nodes[path[0]].pinned {
      PathIsUnder(nodes, path);
    }
  }

  function EntryOf(ms: seq<Mark>, t: nat): Entry
    requires t in TilesSeen(ms)
  {
    Entry(t, FirstOf(ms, t).value.at, ViewsOf(ms, t))
  }

  function EntriesOf(ms: seq<Mark>): (es: seq<Entry>)
    ensures |es| == |TilesSeen(ms)|
    ensures forall i :: 0 <= i < |es| ==> TilesSeen(ms)[i] in TilesSeen(ms) && es[i] == EntryOf(ms, TilesSeen(ms)[i])
  {
    var seen := TilesSeen(ms);
    seq(|seen|, i requires 0 <= i < |seen| => assert seen[i] in seen; EntryOf(ms, seen[i]))
  }

  function TilesFrom(nodes: seq<Node>, es: seq<Entry>): (r: seq<Tile>)
    requires Acyclic(nodes)
    ensures |r| == |es|
    ensures forall i :: 0 <= i < |es| ==> r[i] == Tile(es[i].views, IsPinned(nodes, es[i].node))
  {
    seq(|es|, i requires 0 <= i < |es| => Tile(es[i].views, IsPinned(nodes, es[i].node)))
  }

  /** The counted nodes of a dump; each shows a number or a percentage. */
  function MarksOf(nodes: seq<Node>, screenW: int, screenH: int): (ms: seq<Mark>)
    requires Acyclic(nodes)
    ensures forall m :: m in ms ==>
      m.tile < |nodes| && m.at == nodes[m.tile].bounds && (m.count.Some? || m.percent.Some?)
  {
    var counts := CountsOf(nodes, screenH);
    seq(|counts|, i requires 0 <= i < |counts| => MarkOf(nodes, screenW, counts[i]))
  }

  function CountsOf(nodes: seq<Node>, screenH: int): (counts: seq<nat>)
    ensures forall i :: 0 <= i < |counts| ==>
      counts[i] < |nodes| && (nodes[counts[i]].count.Some? || nodes[counts[i]].percent.Some?)
  {
    var counts := CountsIn(nodes, HeaderBottom(nodes), screenH, |nodes|);
    assert forall i :: 0 <= i < |counts| ==> counts[i] in counts;
    counts
  }

  function ProfileOf(nodes: seq<Node>, screenW: int, screenH: int): Profile
    requires Acyclic(nodes)
  {
    var ms := MarksOf(nodes, screenW, screenH);
    Profile(HeaderBottom(nodes) > 0, FirstPercent(ms), TilesFrom(nodes, SortEntries(EntriesOf(ms))))
  }

  // ── The parser ───────────────────────────────────────────────────────────

  /** One more counted node: a new tile, or a tile that turns out to be uploading. */
  lemma OneMoreMark(ms: seq<Mark>, m: Mark)
    ensures var seen := TilesSeen(ms);
            && TilesSeen(ms + [m]) == (if m.tile in seen then seen else seen + [m.tile])
            && (forall u :: u in seen && !(u == m.tile && m.percent.Some?) ==> EntryOf(ms + [m], u) == EntryOf(ms, u))
            && (m.tile in seen && m.percent.Some? ==>
                  EntryOf(ms + [m], m.tile) == EntryOf(ms, m.tile).(views := None))
            && (m.tile !in seen ==>
                  EntryOf(ms + [m], m.tile) == Entry(m.tile, m.at, if m.percent.Some? then None else m.count))
    ensures FirstPercent(ms + [m]) == if FirstPercent(ms).Some? then FirstPercent(ms) else m.percent
  {
    assert (ms + [m])[..|ms|] == ms;
    assert forall x :: x in ms + [m] <==> x in ms || x == m;
    forall u: nat ensures StillUploads(ms + [m], u) <==> StillUploads(ms, u) || (u == m.tile && m.percent.Some?) {
      if u == m.tile && m.percent.Some? {
        assert m in ms + [m];
      }
    }
  }

  method FindTile(nodes: seq<Node>, screenW: int, k: nat) returns (tile: nat)
    requires Acyclic(nodes) && k < |nodes|
    ensures tile == TileOf(nodes, screenW, k)
  {
    var t: Option<nat> := nodes[k].parent;
    while t.Some? && !IsTile(nodes[t.value].bounds, screenW)
      invariant t.Some? ==> t.value < |nodes|
      invariant TileAbove(nodes, screenW, t) == TileAbove(nodes, screenW, nodes[k].parent)
      decreases if t.Some? then t.value + 1 else 0
    {
      t := nodes[t.value].parent;
    }
    tile := if t.Some? then t.value else k;
  }

  method FindEntry(entries: seq<Entry>, tile: nat) returns (i: nat)
    ensures i <= |entries| && (i < |entries| ==> entries[i].node == tile)
    ensures forall k :: 0 <= k < i ==> entries[k].node != tile
  {
    i := 0;
    while i < |entries| && entries[i].node != tile
      invariant i <= |entries| && forall k :: 0 <= k < i ==> entries[k].node != tile
    {
      i := i + 1;
    }
  }

  /** Puts one counted node into the grid, as the source does with its map of tiles. */
  method AddMark(entries: seq<Entry>, m: Mark, ghost ms: seq<Mark>) returns (r: seq<Entry>)
    requires entries == EntriesOf(ms)
    ensures r == EntriesOf(ms + [m])
  {
    OneMoreMark(ms, m);
    var known := FindEntry(entries, m.tile);
    ghost var seen := TilesSeen(ms);
    assert forall k :: 0 <= k < |entries| ==> entries[k].node == seen[k] && seen[k] in seen;
    if known == |entries| {
      assert m.tile !in seen;
      r := entries + [Entry(m.tile, m.at, if m.percent.Some? then None else m.count)];
    } else if m.percent.Some? {
      r := entries[known := entries[known].(views := None)];
    } else {
      r := entries;
    }
  }

  /** One pass over the counted nodes, collecting tiles in a map kept in insertion order. */
  method CollectTiles(nodes: seq<Node>, screenW: int, counts: seq<nat>, ghost ms: seq<Mark>)
    returns (entries: seq<Entry>, uploading: Option<nat>)
    requires Acyclic(nodes) && |ms| == |counts|
    requires forall i :: 0 <= i < |counts| ==> counts[i] < |nodes| && ms[i] == MarkOf(nodes, screenW, counts[i])
    ensures entries == EntriesOf(ms) && uploading == FirstPercent(ms)
  {
    entries, uploading := [], None;
    var i := 0;
    while i < |counts|
      invariant i <= |counts|
      invariant entries == EntriesOf(ms[..i])
      invariant uploading == FirstPercent(ms[..i])
    {
      var tile := FindTile(nodes, screenW, counts[i]);
      var m := Mark(tile, nodes[tile].bounds, nodes[counts[i]].count, nodes[counts[i]].percent);
      assert ms[..i + 1] == ms[..i] + [m];
      OneMoreMark(ms[..i], m);
      if uploading.None? {
        uploading := m.percent;
      }
      entries := AddMark(entries, m, ms[..i]);
      i := i + 1;
    }
    assert ms[..i] == ms;
  }

  method ParseProfileDump(nodes: seq<Node>, screenW: int, screenH: int) returns (profile: Profile)
    requires Acyclic(nodes)
    ensures profile == ProfileOf(nodes, screenW, screenH)
  {
    var counts := CountsOf(nodes, screenH);
    var entries, uploading := CollectTiles(nodes, screenW, counts, MarksOf(nodes, screenW, screenH));
    profile := Profile(HeaderBottom(nodes) > 0, uploading, TilesFrom(nodes, SortEntries(entries)));
  }

  // ── What the result means ────────────────────────────────────────────────

  /** Sorting neither adds nor drops an entry. */
  lemma SortedHasSame(es: seq<Entry>, e: Entry)
    ensures e in es <==> e in SortEntries(es)
  {
    assert e in es <==> e in multiset(es);
    assert e in SortEntries(es) <==> e in multiset(SortEntries(es));
  }

  /** Without any percentage every tile has a number. */
  lemma NoPercentMeansViews(ms: seq<Mark>, e: Entry)
    requires e in EntriesOf(ms) && FirstPercent(ms).None? && forall m :: m in ms ==> m.count.Some? || m.percent.Some?
    ensures e.views.Some?
  {
    var k :| 0 <= k < |EntriesOf(ms)| && EntriesOf(ms)[k] == e;
    var t := TilesSeen(ms)[k];
    assert t in TilesSeen(ms);
    assert FirstOf(ms, t).Some?;
  }

  /** With one, its tile has none. */
  lemma PercentMeansNoViews(ms: seq<Mark>) returns (e: Entry)
    requires FirstPercent(ms).Some?
    ensures e in EntriesOf(ms) && e.views.None?
  {
    var m :| m in ms && m.percent.Some?;
    assert StillUploads(ms, m.tile);
    assert m.tile in TilesSeen(ms);
    var k :| 0 <= k < |TilesSeen(ms)| && TilesSeen(ms)[k] == m.tile;
    e := EntriesOf(ms)[k];
  }

  /** No badge of an upload means that every tile has a number of views, and the other way round. */
  lemma {:induction false} NoUploadIffAllViewsKnown(nodes: seq<Node>, screenW: int, screenH: int)
    requires Acyclic(nodes)
    ensures var p := ProfileOf(nodes, screenW, screenH);
            p.uploading.None? <==> forall t :: t in p.tiles ==> t.views.Some?
  {
    var ms := MarksOf(nodes, screenW, screenH);
    var es := EntriesOf(ms);
    var sorted := SortEntries(es);
    var p := ProfileOf(nodes, screenW, screenH);
    if p.uploading.None? {
      forall i | 0 <= i < |p.tiles| ensures p.tiles[i].views.Some? {
        SortedHasSame(es, sorted[i]);
        NoPercentMeansViews(ms, sorted[i]);
      }
    } else {
      var e := PercentMeansNoViews(ms);
      SortedHasSame(es, e);
      var i :| 0 <= i < |sorted| && sorted[i] == e;
      assert p.tiles[i] in p.tiles && p.tiles[i].views.None?;
    }
  }

  ghost predicate DistinctNodes(es: seq<Entry>) {
    forall i, j :: 0 <= i < j < |es| ==> es[i].node != es[j].node
  }

  /**
   The grid is a list of distinct nodes, from top to bottom and left to right; they are exactly the tiles of
   the counted nodes, and each shows what its own counted nodes say.
   */
  lemma {:induction false} GridIsTheTiles(nodes: seq<Node>, screenW: int, screenH: int) returns (es: seq<Entry>)
    requires Acyclic(nodes)
    ensures ProfileOf(nodes, screenW, screenH).tiles == TilesFrom(nodes, es)
    ensures InOrder(es) && DistinctNodes(es)
    ensures var ms := MarksOf(nodes, screenW, screenH);
            && |es| == |TilesSeen(ms)|
            && forall e :: e in es ==>
                 e.node < |nodes| && e.at == nodes[e.node].bounds && e.node in TilesSeen(ms) && e.views == ViewsOf(ms, e.node)
  {
    var ms := MarksOf(nodes, screenW, screenH);
    var unsorted := EntriesOf(ms);
    es := SortEntries(unsorted);
    SortIsInOrder(unsorted);
    forall e | e in es ensures e in unsorted {
      SortedHasSame(unsorted, e);
    }
    DistinctNodesSurvive(unsorted, es);
    SameLength(es, unsorted);
  }

  lemma SameLength(a: seq<Entry>, b: seq<Entry>)
    requires multiset(a) == multiset(b)
    ensures |a| == |b|
  {
    assert |multiset(a)| == |a| && |multiset(b)| == |b|;
  }

  /** A rearrangement of entries for distinct nodes has distinct nodes. */
  lemma DistinctNodesSurvive(es: seq<Entry>, es': seq<Entry>)
    requires multiset(es) == multiset(es') && DistinctNodes(es)
    ensures DistinctNodes(es')
  {
    forall i, j | 0 <= i < j < |es'| ensures es'[i].node != es'[j].node {
      assert es'[i] in multiset(es') && es'[j] in multiset(es');
      assert es'[i] in es && es'[j] in es;
      OnceInMultiset(es, es'[i]);
      TwiceInMultiset(es', i, j);
    }
  }

  lemma TwiceInMultiset(s: seq<Entry>, i: nat, j: nat)
    requires i < j < |s|
    ensures s[i] == s[j] ==> multiset(s)[s[i]] >= 2
  {
    assert s == s[..j] + s[j..];
    assert s[i] == s[..j][i];
    assert s[..j][i] in multiset(s[..j]) && s[j..][0] in multiset(s[j..]);
  }

  lemma {:induction false} OnceInMultiset(s: seq<Entry>, e: Entry)
    requires DistinctNodes(s)
    ensures multiset(s)[e] <= 1
  {
    if s != [] {
      var n := |s| - 1;
      assert s == s[..n] + [s[n]];
      OnceInMultiset(s[..n], e);
      assert forall i :: 0 <= i < n ==> s[..n][i].node != s[n].node;
      assert s[n] !in s[..n];
    }
  }
}
