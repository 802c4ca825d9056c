/**
 What happens after a walk has failed: its shard is missing from the frontier, and the walk of a later master goes on
 below the old frontier exactly if it passes the top of a missing shard.
 */
module LostShards {
  import opened Decimal
  import opened Shards
  import opened Walk
  import opened Coverage
  import opened Climbs

  /** Some entries of `f` and nothing else. */
  predicate SubFrontier(f': Frontier, f: Frontier) {
    forall s :: s in f' ==> s in f && f'[s] == f[s]
  }

  // ----- nothing is built on a top -----

  /** The place of a block on which a move builds rises above it. */
  lemma BuiltUpon(t: Tree, m: Move, p: Block)
    requires CanMove(t, m) && p in ParentsAt(t, m)
    ensures Height(Moved(t, m), p.shard) > p.seqno
  {
    SubtreeReplaced(t, m.at, Grown(t, m));
    HeightConcat(Moved(t, m), m.at, []);
    HeightConcat(Moved(t, m), m.at, [false]);
    HeightConcat(Moved(t, m), m.at, [true]);
    assert m.at + [] == m.at;
  }

  /** A parent of an archived block is not a top any more. */
  lemma {:induction false} ParentIsNoTop(h: seq<Move>, b: Block, p: Block)
    requires Valid(h) && b in Archive(h) && p in Archive(h)[b]
    ensures !IsTop(TreeOf(h), p) && Height(TreeOf(h), p.shard) > p.seqno
    decreases |h|
  {
    var before, m := h[..|h| - 1], h[|h| - 1];
    if b in Born(TreeOf(before), m) {
      BuiltUpon(TreeOf(before), m, p);
    } else {
      ParentIsNoTop(before, b, p);
      MoveRises(TreeOf(before), m, p.shard);
    }
    if IsTop(TreeOf(h), p) {
      TopIsHeight(TreeOf(h), p.shard);
    }
  }

  // ----- the walk with a partial frontier -----

  /** A block that the walk meets: it stops exactly at the old tops whose shards the partial frontier knows. */
  predicate MeetsTops(small: Parents, t: Tree, f: Frontier, p: Block) {
    (Stops(f, p) <==> p in small && p.shard in f) && (p in small ==> IsTop(t, p))
  }

  /**
   The archive `parents`, the part `small` of it that existed when the tree was `t`, and some entries `f` of the
   frontier of that time.
   */
  ghost predicate Partial(parents: Parents, small: Parents, t: Tree, f: Frontier) {
    && WellFormed(parents) && WellFormed(small) && Extends(parents, small)
    && (forall b, p :: b in parents && b !in small && p in parents[b] ==> MeetsTops(small, t, f, p))
    && (forall c, p :: c in small && p in small[c] ==> !IsTop(t, p))
    && (forall b :: IsTop(t, b) ==> b in small)
  }

  /** A top of the old time whose shard is missing lies at or below `b`. */
  ghost predicate PassesMissing(parents: Parents, t: Tree, f: Frontier, b: Block)
    requires WellFormed(parents) && b in parents
  {
    exists top :: MissingBelow(parents, t, f, b, top)
  }

  ghost predicate MissingBelow(parents: Parents, t: Tree, f: Frontier, b: Block, top: Block)
    requires WellFormed(parents) && b in parents
  {
    IsTop(t, top) && top.shard !in f && AncestorOrSelf(parents, top, b)
  }

  /** A top is an ancestor of no other block of its time. */
  lemma {:induction false} TopHasNoDescendant(parents: Parents, small: Parents, t: Tree, f: Frontier, top: Block,
                                              b: Block)
    requires Partial(parents, small, t, f) && b in small && IsTop(t, top) && AncestorOrSelf(parents, top, b)
    ensures top == b
    decreases b.seqno
  {
    if top != b {
      var p :| p in parents[b] && AncestorOrSelf(parents, top, p);
      assert parents[b] == small[b] && p in small[b];
      TopHasNoDescendant(parents, small, t, f, top, p);
    }
  }

  lemma {:induction false} InPushedAll(parents: Parents, f: Frontier, child: Block, ps: seq<Block>, p: Block, x: Block)
    requires WellFormed(parents) && child in parents && (forall q :: q in ps ==> q in parents && q.seqno < child.seqno)
    requires p in ps && x in Pushed(parents, f, p)
    ensures x in PushedAll(parents, f, child, ps)
    decreases |ps|
  {
    if p != ps[0] {
      assert p in ps[1..];
      InPushedAll(parents, f, child, ps[1..], p, x);
    }
  }

  lemma {:induction false} ReachesMissing(parents: Parents, small: Parents, t: Tree, f: Frontier, b: Block, top: Block)
    requires Partial(parents, small, t, f) && b in parents && MeetsTops(small, t, f, b)
    requires MissingBelow(parents, t, f, b, top)
    ensures top in Pushed(parents, f, b)
    decreases b.seqno
  {
    if top != b {
      if b in small {
        TopHasNoDescendant(parents, small, t, f, top, b);
      }
      var p :| p in parents[b] && AncestorOrSelf(parents, top, p);
      assert MeetsTops(small, t, f, p);
      ReachesMissing(parents, small, t, f, p, top);
      InPushedAll(parents, f, b, parents[b], p, top);
    }
  }

  /** Whatever old block the walk pushes, it has come to it through the top of a missing shard. */
  lemma {:induction false} OldBlockPassesMissing(parents: Parents, small: Parents, t: Tree, f: Frontier, b: Block,
                                                 x: Block)
    requires Partial(parents, small, t, f) && b in parents && MeetsTops(small, t, f, b)
    requires x in Pushed(parents, f, b) && x in small
    ensures PassesMissing(parents, t, f, b)
    decreases b.seqno, 1, 0
  {
    if b in small {
      assert MissingBelow(parents, t, f, b, b);
    } else {
      var p := OldBlockFromParents(parents, small, t, f, b, parents[b], x);
      var top :| MissingBelow(parents, t, f, p, top);
      assert MissingBelow(parents, t, f, b, top);
    }
  }

  lemma {:induction false} OldBlockFromParents(parents: Parents, small: Parents, t: Tree, f: Frontier, b: Block,
                                               ps: seq<Block>, x: Block) returns (p: Block)
    requires Partial(parents, small, t, f) && b in parents && b !in small && forall q :: q in ps ==> q in parents[b]
    requires x in PushedAll(parents, f, b, ps) && x in small
    ensures p in parents[b] && PassesMissing(parents, t, f, p)
    decreases b.seqno, 0, |ps|
  {
    if x in Pushed(parents, f, ps[0]) {
      p := ps[0];
      assert MeetsTops(small, t, f, p);
      OldBlockPassesMissing(parents, small, t, f, p, x);
    } else {
      p := OldBlockFromParents(parents, small, t, f, b, ps[1..], x);
    }
  }

  /** The walk from `b` pushes a block that had been covered already. */
  ghost predicate Repeats(parents: Parents, small: Parents, f: Frontier, b: Block)
    requires WellFormed(parents) && b in parents
  {
    exists x :: x in Pushed(parents, f, b) && x in small
  }

  /** The walk pushes an old block exactly if the top of a missing shard lies at or below its start. */
  lemma RepeatsIffMissing(parents: Parents, small: Parents, t: Tree, f: Frontier, b: Block)
    requires Partial(parents, small, t, f) && b in parents && MeetsTops(small, t, f, b)
    ensures Repeats(parents, small, f, b) <==> PassesMissing(parents, t, f, b)
  {
    if PassesMissing(parents, t, f, b) {
      var top :| MissingBelow(parents, t, f, b, top);
      ReachesMissing(parents, small, t, f, b, top);
      assert top in Pushed(parents, f, b) && top in small;
    }
    if x :| x in Pushed(parents, f, b) && x in small {
      OldBlockPassesMissing(parents, small, t, f, b, x);
    }
  }

  lemma MetMeetsTops(h: seq<Move>, j: nat, f: Frontier, f': Frontier, b: Block)
    requires Valid(h) && j <= |h| && Valid(h[..j]) && IsFrontier(f, TreeOf(h[..j])) && SubFrontier(f', f)
    requires Met(h, j, b)
    ensures MeetsTops(Archive(h[..j]), TreeOf(h[..j]), f', b)
  {
    TestIsCovered(h, j, f, b);
  }

  /** A history, an earlier position of it, and a part of the frontier of that position. */
  lemma HistoryIsPartial(h: seq<Move>, j: nat, f: Frontier, f': Frontier)
    requires Valid(h) && j <= |h| && Valid(h[..j]) && IsFrontier(f, TreeOf(h[..j])) && SubFrontier(f', f)
    ensures Partial(Archive(h), Archive(h[..j]), TreeOf(h[..j]), f')
  {
    ArchiveWellFormed(h);
    ArchiveWellFormed(h[..j]);
    ArchiveExtends(h, j);
    var parents, small, t := Archive(h), Archive(h[..j]), TreeOf(h[..j]);
    forall b, p | b in parents && b !in small && p in parents[b]
      ensures MeetsTops(small, t, f', p)
    {
      ParentsAreMet(h, j, b, p);
      MetMeetsTops(h, j, f, f', p);
    }
    forall c, p | c in small && p in small[c]
      ensures !IsTop(t, p)
    {
      ParentIsNoTop(h[..j], c, p);
    }
  }

  /** The walk still pushes everything that is new. */
  lemma {:induction false} NothingNewMissed(parents: Parents, small: Parents, t: Tree, f: Frontier, b: Block, x: Block)
    requires Partial(parents, small, t, f) && b in parents && MeetsTops(small, t, f, b)
    requires AncestorOrSelf(parents, x, b) && x !in small
    ensures x in Pushed(parents, f, b)
    decreases b.seqno
  {
    if b in small {
      AncestorsAreOlder(parents, small, x, b);
    }
    if x != b {
      var p :| p in parents[b] && AncestorOrSelf(parents, x, p);
      assert MeetsTops(small, t, f, p);
      NothingNewMissed(parents, small, t, f, p, x);
      InPushedAll(parents, f, b, parents[b], p, x);
    }
  }

  /**
   If no shard of the frontier is left among the ancestors of a top, its walk does not stop before the zero state: it
   pushes the whole ancestry again.
   */
  lemma {:induction false} ForgottenShard(parents: Parents, f: Frontier, b: Block, x: Block)
    requires WellFormed(parents) && b in parents
    requires forall a :: AncestorOrSelf(parents, a, b) ==> a.shard !in f
    ensures x in Pushed(parents, f, b) <==> AncestorOrSelf(parents, x, b)
    decreases b.seqno, 1, 0
  {
    assert AncestorOrSelf(parents, b, b);
    ForgottenParents(parents, f, b, parents[b], x);
  }

  lemma {:induction false} ForgottenParents(parents: Parents, f: Frontier, b: Block, ps: seq<Block>, x: Block)
    requires WellFormed(parents) && b in parents && (forall p :: p in ps ==> p in parents[b])
    requires forall a :: AncestorOrSelf(parents, a, b) ==> a.shard !in f
    ensures x in PushedAll(parents, f, b, ps) <==> exists p :: p in ps && AncestorOrSelf(parents, x, p)
    decreases b.seqno, 0, |ps|
  {
    if ps != [] {
      assert forall a :: AncestorOrSelf(parents, a, ps[0]) ==> AncestorOrSelf(parents, a, b);
      ForgottenShard(parents, f, ps[0], x);
      ForgottenParents(parents, f, b, ps[1..], x);
      assert ps == [ps[0]] + ps[1..];
    }
  }

  // ----- after a master with failed walks -----

  predicate Distinct(tops: seq<Block>) {
    forall i, k :: 0 <= i < k < |tops| ==> tops[i] != tops[k]
  }

  lemma KeptIsTop(tops: seq<Block>, ws: seq<Climb>, b: Block)
    requires |tops| == |ws| && b in Kept(tops, ws)
    ensures b in tops
  {
    InKept(tops, ws, b);
  }

  lemma KeptEntry(t: Tree, tops: seq<Block>, ws: seq<Climb>, s: Shard)
    requires ListsTops(tops, t) && |ws| == |tops| && s in FrontierOf(Kept(tops, ws))
    ensures Top(t, s) == Some(FrontierOf(Kept(tops, ws))[s])
  {
    FrontierEntries(Kept(tops, ws));
    var b := Block(s, FrontierOf(Kept(tops, ws))[s]);
    KeptIsTop(tops, ws, b);
    assert IsTop(t, b);
  }

  lemma KeptShard(t: Tree, tops: seq<Block>, ws: seq<Climb>, i: nat)
    requires ListsTops(tops, t) && Distinct(tops) && |ws| == |tops| && i < |tops|
    ensures tops[i].shard in FrontierOf(Kept(tops, ws)) <==> !Failed(ws[i])
  {
    var kept := Kept(tops, ws);
    FrontierEntries(kept);
    InKept(tops, ws, tops[i]);
    assert IsTop(t, tops[i]);
    if tops[i].shard in FrontierOf(kept) {
      KeptEntry(t, tops, ws, tops[i].shard);
      assert Block(tops[i].shard, FrontierOf(kept)[tops[i].shard]) == tops[i];
    }
  }

  /** The frontier after the walks `ws` is the part of the full one without the shards whose walks failed. */
  lemma KeptIsPartial(t: Tree, tops: seq<Block>, ws: seq<Climb>)
    requires ListsTops(tops, t) && Distinct(tops) && |ws| == |tops|
    ensures IsFrontier(FrontierOf(tops), t) && SubFrontier(FrontierOf(Kept(tops, ws)), FrontierOf(tops))
    ensures forall i :: 0 <= i < |tops| ==> (tops[i].shard in FrontierOf(Kept(tops, ws)) <==> !Failed(ws[i]))
  {
    FrontierOfTops(tops, t);
    forall s | s in FrontierOf(Kept(tops, ws))
      ensures s in FrontierOf(tops) && FrontierOf(Kept(tops, ws))[s] == FrontierOf(tops)[s]
    {
      KeptEntry(t, tops, ws, s);
    }
    forall i | 0 <= i < |tops|
      ensures tops[i].shard in FrontierOf(Kept(tops, ws)) <==> !Failed(ws[i])
    {
      KeptShard(t, tops, ws, i);
    }
  }

  /** A top of which the next master's walk passes a failed one. */
  ghost predicate PassesFailed(parents: Parents, tops: seq<Block>, ws: seq<Climb>, b: Block)
    requires WellFormed(parents) && b in parents && |tops| == |ws|
  {
    exists i :: 0 <= i < |tops| && Failed(ws[i]) && AncestorOrSelf(parents, tops[i], b)
  }

  lemma MissingIffFailed(parents: Parents, t: Tree, tops: seq<Block>, ws: seq<Climb>, f: Frontier, b: Block)
    requires WellFormed(parents) && b in parents && |tops| == |ws| && ListsTops(tops, t)
    requires forall i :: 0 <= i < |tops| ==> (tops[i].shard in f <==> !Failed(ws[i]))
    ensures PassesMissing(parents, t, f, b) <==> PassesFailed(parents, tops, ws, b)
  {
    if PassesMissing(parents, t, f, b) {
      var top :| MissingBelow(parents, t, f, b, top);
      assert top in tops;
    }
    if PassesFailed(parents, tops, ws, b) {
      var i :| 0 <= i < |tops| && Failed(ws[i]) && AncestorOrSelf(parents, tops[i], b);
      assert tops[i] in tops && MissingBelow(parents, t, f, b, tops[i]);
    }
  }

  lemma RepeatsIffFailed(parents: Parents, small: Parents, t: Tree, tops: seq<Block>, ws: seq<Climb>, f: Frontier,
                         b: Block)
    requires Partial(parents, small, t, f) && b in parents && MeetsTops(small, t, f, b)
    requires |tops| == |ws| && ListsTops(tops, t)
    requires forall i :: 0 <= i < |tops| ==> (tops[i].shard in f <==> !Failed(ws[i]))
    ensures Repeats(parents, small, f, b) <==> PassesFailed(parents, tops, ws, b)
  {
    RepeatsIffMissing(parents, small, t, f, b);
    MissingIffFailed(parents, t, tops, ws, f, b);
  }

  /**
   After a master at position `j` whose walks `ws` may have failed, the walk from a later block pushes something that
   existed at position `j` if and only if one of the tops whose walk failed lies at or below that block.
   */
  lemma FailedWalksRepeat(h: seq<Move>, j: nat, tops: seq<Block>, ws: seq<Climb>, b: Block)
    requires Valid(h) && j <= |h| && Valid(h[..j]) && ListsTops(tops, TreeOf(h[..j])) && Distinct(tops)
    requires |ws| == |tops| && Met(h, j, b)
    ensures WellFormed(Archive(h))
    ensures Repeats(Archive(h), Archive(h[..j]), FrontierOf(Kept(tops, ws)), b)
            <==> PassesFailed(Archive(h), tops, ws, b)
  {
    var f', t := FrontierOf(Kept(tops, ws)), TreeOf(h[..j]);
    KeptIsPartial(t, tops, ws);
    HistoryIsPartial(h, j, FrontierOf(tops), f');
    MetMeetsTops(h, j, FrontierOf(tops), f', b);
    RepeatsIffFailed(Archive(h), Archive(h[..j]), t, tops, ws, f', b);
  }

  /** If every walk of a master fails, the frontier is empty, and the next master is taken for the first one. */
  lemma AllWalksFailed(tops: seq<Block>, ws: seq<Climb>)
    requires |ws| == |tops|
    ensures FrontierOf(Kept(tops, ws)) == map[] <==> forall i :: 0 <= i < |ws| ==> Failed(ws[i])
  {
    var kept := Kept(tops, ws);
    FrontierEntries(kept);
    if kept != [] {
      InKept(tops, ws, kept[0]);
      assert kept[0] in kept;
    }
    forall i | 0 <= i < |ws| && !Failed(ws[i])
      ensures kept != []
    {
      InKept(tops, ws, tops[i]);
    }
  }

  // ----- an example with two shards -----

  const LEFT: Shard := [false]
  const RIGHT: Shard := [true]

  /** The workchain splits in two, and the left shard gets two more blocks. */
  const HISTORY: seq<Move> := [Split([]), Extend(LEFT), Extend(LEFT)]

  lemma TreeAfter(h: seq<Move>, m: Move)
    requires Valid(h) && CanMove(TreeOf(h), m)
    ensures Valid(h + [m]) && TreeOf(h + [m]) == Moved(TreeOf(h), m)
  {
    assert (h + [m])[..|h|] == h;
  }

  lemma HistoryTrees()
    ensures Valid(HISTORY[..1]) && TreeOf(HISTORY[..1]) == Fork(Leaf(1), Leaf(1))
    ensures Valid(HISTORY[..2]) && TreeOf(HISTORY[..2]) == Fork(Leaf(2), Leaf(1))
    ensures Valid(HISTORY) && TreeOf(HISTORY) == Fork(Leaf(3), Leaf(1))
  {
    var h := HISTORY;
    assert h[..1] == [] + [Split([])] && h[..2] == h[..1] + [Extend(LEFT)] && h == h[..2] + [Extend(LEFT)];
    assert LEFT[1..] == [];
    TreeAfter([], Split([]));
    assert Subtree(TreeOf(h[..1]), LEFT) == Some(Leaf(1));
    TreeAfter(h[..1], Extend(LEFT));
    assert Subtree(TreeOf(h[..2]), LEFT) == Some(Leaf(2));
    TreeAfter(h[..2], Extend(LEFT));
  }

  lemma HistoryArchive()
    ensures Valid(HISTORY) && var a := Archive(HISTORY);
      && Block(LEFT, 3) in a && a[Block(LEFT, 3)] == [Block(LEFT, 2)]
      && Block(LEFT, 2) in a && a[Block(LEFT, 2)] == [Block(LEFT, 1)]
      && Block(LEFT, 1) in a && a[Block(LEFT, 1)] == [Block([], 0)]
      && Block([], 0) in a && a[Block([], 0)] == []
  {
    HistoryTrees();
    var h := HISTORY;
    assert h[..3] == h;
    assert h[..1] == [Split([])] && h[..1][..0] == [] && h[..2][..1] == h[..1];
    assert LEFT[1..] == [] && [] + [false] == LEFT;
    assert Block(LEFT, 1) in Born(Leaf(0), Split([]));
    assert Born(TreeOf(h[..1]), h[1]) == {Block(LEFT, 2)};
    assert Born(TreeOf(h[..2]), h[2]) == {Block(LEFT, 3)};
    assert Archive(h[..0]) == map[Block([], 0) := []];
    ParentsOfBorn(h, h[..1], Block(LEFT, 1));
    ParentsOfBorn(h, h[..2], Block(LEFT, 2));
    ParentsOfBorn(h, h, Block(LEFT, 3));
    ArchiveExtends(h, 0);
  }

  /** The tops at position 2; the lookup of the left one fails, and the right one is covered. */
  const TOPS: seq<Block> := [Block(LEFT, 2), Block(RIGHT, 1)]
  const WALKS: seq<Climb> := [Climb([Block(LEFT, 2)], [false]), Climb([], [])]

  /** The blocks of the left shard and the zero state. */
  predicate LeftLine(b: Block) {
    b in {Block(LEFT, 3), Block(LEFT, 2), Block(LEFT, 1), Block([], 0)}
  }

  lemma AncestorsOfLeft(a: Block)
    requires Valid(HISTORY) && WellFormed(Archive(HISTORY)) && Block(LEFT, 3) in Archive(HISTORY)
    ensures AncestorOrSelf(Archive(HISTORY), a, Block(LEFT, 3)) <==> LeftLine(a)
  {
    HistoryArchive();
    var p := Archive(HISTORY);
    assert AncestorOrSelf(p, a, Block([], 0)) <==> a == Block([], 0);
    assert AncestorOrSelf(p, a, Block(LEFT, 1)) <==> a == Block(LEFT, 1) || AncestorOrSelf(p, a, p[Block(LEFT, 1)][0]);
    assert AncestorOrSelf(p, a, Block(LEFT, 2)) <==> a == Block(LEFT, 2) || AncestorOrSelf(p, a, p[Block(LEFT, 2)][0]);
    assert AncestorOrSelf(p, a, Block(LEFT, 3)) <==> a == Block(LEFT, 3) || AncestorOrSelf(p, a, p[Block(LEFT, 3)][0]);
  }

  lemma TopsOfPosition2(b: Block)
    ensures b in TOPS <==> IsTop(Fork(Leaf(2), Leaf(1)), b)
  {
    var s := b.shard;
    if s != [] {
      assert Subtree(Fork(Leaf(2), Leaf(1)), s) == Subtree(if s[0] then Leaf(1) else Leaf(2), s[1..]);
      assert s[1..] == [] ==> s == [s[0]];
    }
  }

  lemma WalksOfPosition2(parents: Parents)
    requires WellFormed(parents) && forall b :: b in TOPS ==> b in parents
    ensures ClimbsFrom(parents, map[LEFT := 1, RIGHT := 1], TOPS, WALKS)
  {
    var f: Frontier := map[LEFT := 1, RIGHT := 1];
    Alone(parents, f, TOPS[0]);
    assert ClimbAt(parents, f, TOPS, WALKS, 0);
    assert Climbed(parents, f, TOPS[1], [], []);
    assert ClimbAt(parents, f, TOPS, WALKS, 1);
  }

  lemma LeftIsForgotten()
    ensures FrontierOf(Kept(TOPS, WALKS)) == map[RIGHT := 1]
  {
    var tops, ws := TOPS, WALKS;
    assert Failed(ws[0]) && !Failed(ws[1]);
    assert tops[..0] == [] && tops[..1][..0] == [] && ws[..1][..0] == [] && tops[..1][0] == tops[0];
    assert Kept(tops[..1], ws[..1]) == [];
    assert Kept(tops, ws) == [Block(RIGHT, 1)];
    assert [Block(RIGHT, 1)][..0] == [];
  }

  /**
   Two masters see positions 1 and 2, and at position 2 the walk of the left shard fails.  Then the walk from its next
   block does not end at the blocks that are new: it goes down to the zero state, over blocks that were covered before
   the first master.
   */
  lemma LeftShardRepeats()
    ensures Valid(HISTORY) && Valid(HISTORY[..2]) && WellFormed(Archive(HISTORY))
    ensures ListsTops(TOPS, TreeOf(HISTORY[..2])) && forall b :: b in TOPS ==> b in Archive(HISTORY)
    ensures ClimbsFrom(Archive(HISTORY), map[LEFT := 1, RIGHT := 1], TOPS, WALKS)
    ensures Block(LEFT, 3) in Archive(HISTORY)
    ensures forall x :: LeftLine(x) <==> x in Pushed(Archive(HISTORY), FrontierOf(Kept(TOPS, WALKS)), Block(LEFT, 3))
  {
    HistoryTrees();
    HistoryArchive();
    ArchiveWellFormed(HISTORY);
    ArchiveWellFormed(HISTORY[..2]);
    ArchiveExtends(HISTORY, 2);
    forall b
      ensures b in TOPS <==> IsTop(TreeOf(HISTORY[..2]), b)
    {
      TopsOfPosition2(b);
    }
    WalksOfPosition2(Archive(HISTORY));
    LeftIsForgotten();
    forall x
      ensures LeftLine(x) <==> x in Pushed(Archive(HISTORY), map[RIGHT := 1], Block(LEFT, 3))
    {
      LeftWalk(x);
    }
  }

  lemma LeftWalk(x: Block)
    requires Valid(HISTORY) && WellFormed(Archive(HISTORY)) && Block(LEFT, 3) in Archive(HISTORY)
    ensures LeftLine(x) <==> x in Pushed(Archive(HISTORY), map[RIGHT := 1], Block(LEFT, 3))
  {
    forall a | AncestorOrSelf(Archive(HISTORY), a, Block(LEFT, 3))
      ensures a.shard !in map[RIGHT := 1]
    {
      AncestorsOfLeft(a);
    }
    ForgottenShard(Archive(HISTORY), map[RIGHT := 1], Block(LEFT, 3), x);
    AncestorsOfLeft(x);
  }
}
