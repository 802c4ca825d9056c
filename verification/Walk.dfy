/**
 The observer's walk from new tops back to the recorded frontier, and what it covers.
 */
module Walk {
  import opened Decimal
  import opened Shards

  type Frontier = map<Shard, nat>

  /** What the liteserver answers: the parents of every block of the archive. */
  type Parents = map<Block, seq<Block>>

  /** The test of the observer: the frontier has this shard at this block or a later one. */
  predicate Stops(f: Frontier, b: Block) {
    b.shard in f && f[b.shard] >= b.seqno
  }

  /** Parents have smaller sequence numbers, and all of them are known. */
  predicate WellFormed(parents: Parents) {
    forall b, p :: b in parents && p in parents[b] ==> p in parents && p.seqno < b.seqno
  }

  /** The blocks that the walk pushes from `b`, in the order of pushing. */
  function Pushed(parents: Parents, f: Frontier, b: Block): seq<Block>
    requires WellFormed(parents) && b in parents
    decreases b.seqno, 1, 0
  {
    if Stops(f, b) then [] else [b] + PushedAll(parents, f, b, parents[b])
  }

  function PushedAll(parents: Parents, f: Frontier, child: Block, ps: seq<Block>): seq<Block>
    requires WellFormed(parents) && child in parents
    requires forall p :: p in ps ==> p in parents && p.seqno < child.seqno
    decreases child.seqno, 0, |ps|
  {
    if ps == [] then [] else Pushed(parents, f, ps[0]) + PushedAll(parents, f, child, ps[1..])
  }

  /** `a` is `b` or one of its ancestors. */
  ghost predicate AncestorOrSelf(parents: Parents, a: Block, b: Block)
    requires WellFormed(parents) && b in parents
    decreases b.seqno
  {
    a == b || exists p :: p in parents[b] && AncestorOrSelf(parents, a, p)
  }

  // ----- the archive of a history -----

  /** `big` knows all that `small` knows. */
  predicate Extends(big: Parents, small: Parents) {
    forall b :: b in small ==> b in big && big[b] == small[b]
  }

  ghost predicate KnowsTops(parents: Parents, t: Tree) {
    forall b :: IsTop(t, b) ==> b in parents
  }

  lemma ArchiveStep(parents: Parents, t: Tree, m: Move)
    requires WellFormed(parents) && KnowsTops(parents, t) && CanMove(t, m)
    ensures var grown := parents + map b | b in Born(t, m) :: ParentsAt(t, m);
      WellFormed(grown) && KnowsTops(grown, Moved(t, m))
  {
    var grown := parents + map b | b in Born(t, m) :: ParentsAt(t, m);
    forall b, p | b in grown && p in grown[b]
      ensures p in grown && p.seqno < b.seqno
    {
      if b in Born(t, m) {
        BornAreTops(t, m, b);
        ParentsAreTops(t, m, p);
      }
    }
    forall b | IsTop(Moved(t, m), b)
      ensures b in grown
    {
      TopIsOldOrBorn(t, m, b);
    }
  }

  lemma {:induction false} ArchiveWellFormed(h: seq<Move>)
    requires Valid(h)
    ensures WellFormed(Archive(h)) && KnowsTops(Archive(h), TreeOf(h))
    decreases |h|
  {
    if h == [] {
      forall b | IsTop(TreeOf(h), b)
        ensures b in Archive(h)
      {
        assert Subtree(TreeOf(h), b.shard) == if b.shard == [] then Some(TreeOf(h)) else None;
      }
    } else {
      var before := h[..|h| - 1];
      ArchiveWellFormed(before);
      ArchiveStep(Archive(before), TreeOf(before), h[|h| - 1]);
    }
  }

  lemma ArchiveExtends(h: seq<Move>, j: nat)
    requires Valid(h) && j <= |h|
    ensures Valid(h[..j]) && Extends(Archive(h), Archive(h[..j]))
  {
    HistoryRises(h, j, []);
    forall b | b in Archive(h[..j])
      ensures b in Archive(h) && Archive(h)[b] == Archive(h[..j])[b]
    {
      ArchiveGrows(h, j, b);
      CreatedIffRisen(h, j, b);
    }
  }

  /** Everything below an archived block was archived with it. */
  lemma {:induction false} AncestorsAreOlder(big: Parents, small: Parents, a: Block, b: Block)
    requires WellFormed(big) && WellFormed(small) && Extends(big, small) && b in small
    requires AncestorOrSelf(big, a, b)
    ensures a in small
    decreases b.seqno
  {
    if a != b {
      var p :| p in big[b] && AncestorOrSelf(big, a, p);
      AncestorsAreOlder(big, small, a, p);
    }
  }

  /** Building on the top that covers `b`, or leaving it alone, keeps `b` covered. */
  lemma CoverStep(parents: Parents, t: Tree, m: Move, b: Block, top: Block) returns (top': Block)
    requires WellFormed(parents) && CanMove(t, m) && top in parents && AncestorOrSelf(parents, b, top) && IsTop(t, top)
    requires forall x :: x in Born(t, m) ==> x in parents && parents[x] == ParentsAt(t, m)
    ensures top' in parents && IsTop(Moved(t, m), top') && AncestorOrSelf(parents, b, top')
  {
    if top in ParentsAt(t, m) {
      top' := NewBorn(t, m);
      BornAreTops(t, m, top');
      assert top in parents[top'];
    } else {
      TopsStay(t, m, top);
      top' := top;
    }
  }

  lemma ParentsOfBorn(full: seq<Move>, h: seq<Move>, b: Block)
    requires Valid(full) && Valid(h) && h != [] && h <= full
    requires b in Born(TreeOf(h[..|h| - 1]), h[|h| - 1])
    ensures b in Archive(full) && Archive(full)[b] == ParentsAt(TreeOf(h[..|h| - 1]), h[|h| - 1])
  {
    assert full[..|h|] == h;
    ArchiveExtends(full, |h|);
    assert b in Archive(h);
  }

  /** Every archived block is below one of the tops. */
  lemma {:induction false} EveryBlockIsBelowATop(h: seq<Move>, full: seq<Move>, b: Block) returns (top: Block)
    requires Valid(full) && h <= full && Valid(h) && b in Archive(h) && WellFormed(Archive(full))
    ensures IsTop(TreeOf(h), top) && top in Archive(full) && AncestorOrSelf(Archive(full), b, top)
    decreases |h|
  {
    assert full[..|h|] == h;
    if h == [] {
      top := b;
      ArchiveGrows(full, 0, b);
    } else {
      var before := h[..|h| - 1];
      var m := h[|h| - 1];
      if b in Born(TreeOf(before), m) {
        BornAreTops(TreeOf(before), m, b);
        ParentsOfBorn(full, h, b);
        top := b;
      } else {
        top := EveryBlockIsBelowATop(before, full, b);
        forall x | x in Born(TreeOf(before), m)
          ensures x in Archive(full) && Archive(full)[x] == ParentsAt(TreeOf(before), m)
        {
          ParentsOfBorn(full, h, x);
        }
        top := CoverStep(Archive(full), TreeOf(before), m, b, top);
      }
    }
  }

  lemma NewBorn(t: Tree, m: Move) returns (b: Block)
    requires CanMove(t, m)
    ensures b in Born(t, m)
  {
    var u := Subtree(t, m.at).value;
    b := match m
      case Extend(s) => Block(s, u.seqno + 1)
      case Split(s) => Block(s + [false], u.seqno + 1)
      case Merge(s) => Block(s, Max(u.left.seqno, u.right.seqno) + 1);
  }

  // ----- the test of the walk means "already covered" -----

  ghost predicate IsFrontier(f: Frontier, t: Tree) {
    forall s :: (s in f <==> Top(t, s).Some?) && (s in f ==> f[s] == Top(t, s).value)
  }

  /** The blocks that the walk can meet: new ones, and the tops of the frontier itself. */
  predicate Met(h: seq<Move>, j: nat, b: Block)
    requires Valid(h) && j <= |h| && Valid(h[..j])
  {
    b in Archive(h) && (b !in Archive(h[..j]) || IsTop(TreeOf(h[..j]), b))
  }

  /**
   Across splits and merges, and although the frontier knows only the shards that exist now, the observer's test
   on its frontier map coincides with "this block was there when the frontier was taken".
   */
  lemma TestIsCovered(h: seq<Move>, j: nat, f: Frontier, b: Block)
    requires Valid(h) && j <= |h| && Valid(h[..j]) && Met(h, j, b)
    requires IsFrontier(f, TreeOf(h[..j]))
    ensures Stops(f, b) <==> b in Archive(h[..j])
  {
    CreatedIffRisen(h, j, b);
    if b.shard in f {
      TopIsHeight(TreeOf(h[..j]), b.shard);
    }
  }

  /** From a new block the walk meets only such blocks. */
  lemma {:induction false} ParentsAreMet(h: seq<Move>, j: nat, b: Block, p: Block)
    requires Valid(h) && j <= |h| && Valid(h[..j])
    requires b in Archive(h) && b !in Archive(h[..j]) && p in Archive(h)[b] && p in Archive(h)
    ensures Met(h, j, p)
    decreases |h|
  {
    assert h[..|h|] == h;
    if j < |h| {
      var before := h[..|h| - 1];
      assert before[..j] == h[..j];
      if b in Born(TreeOf(before), h[|h| - 1]) {
        if p in Archive(h[..j]) {
          ParentsAreTops(TreeOf(before), h[|h| - 1], p);
          StillTop(before, j, p);
        }
      } else {
        ArchiveWellFormed(before);
        ParentsAreMet(before, j, b, p);
      }
    }
  }

  /** A top that is as old as an earlier time was a top then. */
  lemma StillTop(h: seq<Move>, j: nat, p: Block)
    requires Valid(h) && j <= |h| && Valid(h[..j]) && p in Archive(h[..j]) && IsTop(TreeOf(h), p)
    ensures IsTop(TreeOf(h[..j]), p)
  {
    ArchivedIsRisen(h[..j], p);
    HistoryRises(h, j, p.shard);
    TopIsHeight(TreeOf(h), p.shard);
    TopIsCover(TreeOf(h), p.shard);
    TopIsCover(TreeOf(h[..j]), p.shard);
  }

  // ----- what the walk pushes -----

  /** On everything that the walk can reach from a block outside `small`, the test means membership in `small`. */
  predicate Sharp(parents: Parents, small: Parents, f: Frontier) {
    forall b, p :: b in parents && b !in small && p in parents[b] ==> (Stops(f, p) <==> p in small)
  }

  /** Then the walk pushes exactly the ancestors outside `small`. */
  lemma {:induction false} PushedExactly(parents: Parents, small: Parents, f: Frontier, b: Block, x: Block)
    requires WellFormed(parents) && WellFormed(small) && Extends(parents, small) && Sharp(parents, small, f)
    requires b in parents && (Stops(f, b) <==> b in small)
    ensures x in Pushed(parents, f, b) <==> AncestorOrSelf(parents, x, b) && x !in small
    decreases b.seqno, 1, 0
  {
    if b in small {
      if AncestorOrSelf(parents, x, b) {
        AncestorsAreOlder(parents, small, x, b);
      }
    } else {
      PushedAllExactly(parents, small, f, b, parents[b], x);
    }
  }

  lemma {:induction false} PushedAllExactly(parents: Parents, small: Parents, f: Frontier, b: Block, ps: seq<Block>,
                                            x: Block)
    requires WellFormed(parents) && WellFormed(small) && Extends(parents, small) && Sharp(parents, small, f)
    requires b in parents && b !in small && forall p :: p in ps ==> p in parents[b]
    ensures x in PushedAll(parents, f, b, ps)
            <==> x !in small && exists p :: p in ps && AncestorOrSelf(parents, x, p)
    decreases b.seqno, 0, |ps|
  {
    if ps != [] {
      PushedExactly(parents, small, f, ps[0], x);
      PushedAllExactly(parents, small, f, b, ps[1..], x);
      assert ps == [ps[0]] + ps[1..];
    }
  }

  /** The archive as it was when the frontier was taken is sharp. */
  lemma FrontierIsSharp(h: seq<Move>, j: nat, f: Frontier)
    requires Valid(h) && j <= |h| && Valid(h[..j]) && IsFrontier(f, TreeOf(h[..j]))
    ensures WellFormed(Archive(h)) && WellFormed(Archive(h[..j]))
    ensures Extends(Archive(h), Archive(h[..j])) && Sharp(Archive(h), Archive(h[..j]), f)
  {
    ArchiveWellFormed(h);
    ArchiveWellFormed(h[..j]);
    ArchiveExtends(h, j);
    forall b, p | b in Archive(h) && b !in Archive(h[..j]) && p in Archive(h)[b]
      ensures Stops(f, p) <==> p in Archive(h[..j])
    {
      ParentsAreMet(h, j, b, p);
      TestIsCovered(h, j, f, p);
    }
  }

  // ----- order -----

  function Reverse<T>(s: seq<T>): seq<T> {
    if s == [] then [] else Reverse(s[1..]) + [s[0]]
  }

  lemma {:induction false} ReverseAt<T>(s: seq<T>, k: nat)
    requires k < |s|
    ensures |Reverse(s)| == |s| && Reverse(s)[|s| - 1 - k] == s[k]
  {
    if |s| == 1 {
    } else if k == 0 {
      ReverseAt(s[1..], 0);
    } else {
      ReverseAt(s[1..], k - 1);
    }
  }

  /** Pushing order: whenever a block is on the stack, each of its parents that does not stop the walk is above it. */
  predicate ParentsLater(parents: Parents, f: Frontier, s: seq<Block>) {
    forall i :: 0 <= i < |s| ==>
      s[i] in parents && forall p :: p in parents[s[i]] && !Stops(f, p) ==> p in s[i + 1..]
  }

  lemma ParentsLaterConcat(parents: Parents, f: Frontier, a: seq<Block>, b: seq<Block>)
    requires ParentsLater(parents, f, a) && ParentsLater(parents, f, b)
    ensures ParentsLater(parents, f, a + b)
  {
    forall i | 0 <= i < |a + b|
      ensures (a + b)[i] in parents
      ensures forall p :: p in parents[(a + b)[i]] && !Stops(f, p) ==> p in (a + b)[i + 1..]
    {
      if i < |a| {
        assert (a + b)[i + 1..] == a[i + 1..] + b;
        assert (a + b)[i] == a[i];
      } else {
        assert (a + b)[i + 1..] == b[i - |a| + 1..];
        assert (a + b)[i] == b[i - |a|];
      }
    }
  }

  lemma {:induction false} PushedOrder(parents: Parents, f: Frontier, b: Block)
    requires WellFormed(parents) && b in parents
    ensures ParentsLater(parents, f, Pushed(parents, f, b))
    ensures !Stops(f, b) ==> b in Pushed(parents, f, b)
    decreases b.seqno, 1, 0
  {
    if !Stops(f, b) {
      var rest := PushedAll(parents, f, b, parents[b]);
      PushedAllOrder(parents, f, b, parents[b]);
      var s := [b] + rest;
      forall i | 0 <= i < |s|
        ensures s[i] in parents && forall p :: p in parents[s[i]] && !Stops(f, p) ==> p in s[i + 1..]
      {
        assert s[i + 1..] == rest[i..];
        if i > 0 {
          assert s[i] == rest[i - 1];
        }
      }
    }
  }

  lemma {:induction false} PushedAllOrder(parents: Parents, f: Frontier, child: Block, ps: seq<Block>)
    requires WellFormed(parents) && child in parents
    requires forall p :: p in ps ==> p in parents && p.seqno < child.seqno
    ensures ParentsLater(parents, f, PushedAll(parents, f, child, ps))
    ensures forall p :: p in ps && !Stops(f, p) ==> p in PushedAll(parents, f, child, ps)
    decreases child.seqno, 0, |ps|
  {
    if ps != [] {
      PushedOrder(parents, f, ps[0]);
      PushedAllOrder(parents, f, child, ps[1..]);
      ParentsLaterConcat(parents, f, Pushed(parents, f, ps[0]), PushedAll(parents, f, child, ps[1..]));
      assert ps == [ps[0]] + ps[1..];
    }
  }
}
