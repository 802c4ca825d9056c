/** Walks in which lookups may fail: what they push nevertheless, in which order, and what a master then emits. */
module Climbs {
  import opened Shards
  import opened Walk
  import opened Coverage

  /** Each block but the root was pushed after one of its children, so that it comes off the stack before it. */
  ghost predicate Traced(parents: Parents, f: Frontier, root: Block, s: seq<Block>)
    requires WellFormed(parents) && root in parents
  {
    forall i :: 0 <= i < |s| ==> TracedAt(parents, f, root, s, i)
  }

  ghost predicate TracedAt(parents: Parents, f: Frontier, root: Block, s: seq<Block>, i: nat)
    requires WellFormed(parents) && root in parents && i < |s|
  {
    && !Stops(f, s[i]) && AncestorOrSelf(parents, s[i], root)
    && (s[i] == root || ChildIn(parents, s[i], s[..i]))
  }

  predicate ChildIn(parents: Parents, b: Block, s: seq<Block>) {
    exists c :: c in s && c in parents && b in parents[c]
  }

  /** Blocks whose own lookup succeeded have all their uncovered parents above them. */
  predicate ParentsAbove(parents: Parents, f: Frontier, s: seq<Block>, good: seq<bool>)
    requires |good| == |s|
  {
    forall i :: 0 <= i < |s| ==> AboveAt(parents, f, s, good, i)
  }

  predicate AboveAt(parents: Parents, f: Frontier, s: seq<Block>, good: seq<bool>, i: nat)
    requires i < |s| == |good|
  {
    good[i] ==> ParentsIn(parents, f, s[i], s[i + 1..])
  }

  predicate ParentsIn(parents: Parents, f: Frontier, b: Block, s: seq<Block>) {
    b in parents && forall p :: p in parents[b] && !Stops(f, p) ==> p in s
  }

  /** For how many blocks the lookup failed for good. */
  function Misses(good: seq<bool>): nat {
    if good == [] then 0 else (if good[0] then 0 else 1) + Misses(good[1..])
  }

  lemma {:induction false} AllGoodMisses(good: seq<bool>)
    ensures Misses(good) == 0 <==> AllGood(good)
  {
    if good != [] {
      AllGoodMisses(good[1..]);
      assert forall i :: 0 < i < |good| ==> good[i] == good[1..][i - 1];
      assert forall i :: 0 <= i < |good[1..]| ==> good[1..][i] == good[i + 1];
    }
  }

  lemma {:induction false} MissesConcat(a: seq<bool>, b: seq<bool>)
    ensures Misses(a + b) == Misses(a) + Misses(b)
  {
    if a == [] {
      assert a + b == b;
    } else {
      assert (a + b)[1..] == a[1..] + b;
      MissesConcat(a[1..], b);
    }
  }

  predicate AllGood(good: seq<bool>) {
    forall i :: 0 <= i < |good| ==> good[i]
  }

  /**
   What holds of the blocks that a walk from `root` pushes even if lookups fail; `good` says for each pushed block
   whether its own lookup succeeded.
   */
  ghost predicate Climbed(parents: Parents, f: Frontier, root: Block, s: seq<Block>, good: seq<bool>)
    requires WellFormed(parents) && root in parents
  {
    && |good| == |s|
    && (if Stops(f, root) then s == [] else s != [] && s[0] == root)
    && Traced(parents, f, root, s) && ParentsAbove(parents, f, s, good)
    && (AllGood(good) ==> s == Pushed(parents, f, root))
  }

  /** The same for what the walks from the parents `ps` of `child` push. */
  ghost predicate ClimbedAll(parents: Parents, f: Frontier, child: Block, ps: seq<Block>, s: seq<Block>,
                             good: seq<bool>)
    requires WellFormed(parents) && child in parents && forall p :: p in ps ==> p in parents[child]
  {
    && |good| == |s|
    && Traced(parents, f, child, [child] + s) && ParentsAbove(parents, f, s, good)
    && Reached(f, ps, s)
    && (AllGood(good) ==> s == PushedAll(parents, f, child, ps))
  }

  predicate Reached(f: Frontier, ps: seq<Block>, s: seq<Block>) {
    forall p :: p in ps && !Stops(f, p) ==> p in s
  }

  lemma ChildInMore(parents: Parents, b: Block, s: seq<Block>, t: seq<Block>)
    requires ChildIn(parents, b, s) && forall c :: c in s ==> c in t
    ensures ChildIn(parents, b, t)
  {
    var c :| c in s && c in parents && b in parents[c];
    assert c in t;
  }

  lemma TracedConcat(parents: Parents, f: Frontier, child: Block, a: seq<Block>, p: Block, b: seq<Block>)
    requires WellFormed(parents) && child in parents && p in parents[child] && a != [] && a[0] == child
    requires Traced(parents, f, child, a) && Traced(parents, f, p, b)
    ensures Traced(parents, f, child, a + b)
  {
    var s := a + b;
    forall i | 0 <= i < |s|
      ensures TracedAt(parents, f, child, s, i)
    {
      if i < |a| {
        assert TracedAt(parents, f, child, a, i);
        assert s[i] == a[i] && s[..i] == a[..i];
      } else {
        assert TracedAt(parents, f, p, b, i - |a|);
        assert s[i] == b[i - |a|] && s[..i] == a + b[..i - |a|];
        if s[i] == p {
          assert s[..i][0] == child;
        } else {
          ChildInMore(parents, s[i], b[..i - |a|], s[..i]);
        }
      }
    }
  }

  lemma ParentsAboveConcat(parents: Parents, f: Frontier, a: seq<Block>, ga: seq<bool>, b: seq<Block>, gb: seq<bool>)
    requires |ga| == |a| && |gb| == |b| && ParentsAbove(parents, f, a, ga) && ParentsAbove(parents, f, b, gb)
    ensures ParentsAbove(parents, f, a + b, ga + gb)
  {
    forall i | 0 <= i < |a + b|
      ensures AboveAt(parents, f, a + b, ga + gb, i)
    {
      if i < |a| {
        assert AboveAt(parents, f, a, ga, i);
        assert (a + b)[i] == a[i] && (a + b)[i + 1..] == a[i + 1..] + b;
      } else {
        assert AboveAt(parents, f, b, gb, i - |a|);
        assert (a + b)[i] == b[i - |a|] && (a + b)[i + 1..] == b[i - |a| + 1..];
      }
    }
  }

  lemma {:induction false} PushedAllSnoc(parents: Parents, f: Frontier, child: Block, ps: seq<Block>, p: Block)
    requires WellFormed(parents) && child in parents
    requires (forall q :: q in ps ==> q in parents && q.seqno < child.seqno) && p in parents && p.seqno < child.seqno
    ensures PushedAll(parents, f, child, ps + [p]) == PushedAll(parents, f, child, ps) + Pushed(parents, f, p)
    decreases |ps|
  {
    if ps == [] {
      assert [p][1..] == [] && ps + [p] == [p];
    } else {
      assert (ps + [p])[1..] == ps[1..] + [p];
      PushedAllSnoc(parents, f, child, ps[1..], p);
    }
  }

  lemma GoodConcat(a: seq<bool>, b: seq<bool>)
    ensures AllGood(a + b) <==> AllGood(a) && AllGood(b)
  {
    if AllGood(a + b) {
      assert forall i :: 0 <= i < |a| ==> a[i] == (a + b)[i];
      assert forall i :: 0 <= i < |b| ==> b[i] == (a + b)[|a| + i];
    }
  }

  // ----- how a walk is put together -----

  lemma NoneYet(parents: Parents, f: Frontier, child: Block)
    requires WellFormed(parents) && child in parents && !Stops(f, child)
    ensures ClimbedAll(parents, f, child, [], [], [])
  {
  }

  lemma OneMoreTraced(parents: Parents, f: Frontier, child: Block, a: seq<Block>, p: Block, b: seq<Block>)
    requires WellFormed(parents) && child in parents && p in parents[child]
    requires Traced(parents, f, child, [child] + a) && Traced(parents, f, p, b)
    ensures Traced(parents, f, child, [child] + (a + b))
  {
    TracedConcat(parents, f, child, [child] + a, p, b);
    assert [child] + (a + b) == [child] + a + b;
  }

  lemma OneMorePushed(parents: Parents, f: Frontier, child: Block, ps: seq<Block>, a: seq<Block>, ga: seq<bool>,
                      p: Block, b: seq<Block>, gb: seq<bool>)
    requires WellFormed(parents) && child in parents && (forall q :: q in ps ==> q in parents[child])
    requires p in parents[child]
    requires AllGood(ga) ==> a == PushedAll(parents, f, child, ps)
    requires AllGood(gb) ==> b == Pushed(parents, f, p)
    ensures AllGood(ga + gb) ==> a + b == PushedAll(parents, f, child, ps + [p])
  {
    GoodConcat(ga, gb);
    PushedAllSnoc(parents, f, child, ps, p);
  }

  lemma OneMoreReached(f: Frontier, ps: seq<Block>, a: seq<Block>, p: Block, b: seq<Block>)
    requires Reached(f, ps, a) && (Stops(f, p) || p in b)
    ensures Reached(f, ps + [p], a + b)
  {
  }

  lemma OneMoreParent(parents: Parents, f: Frontier, child: Block, ps: seq<Block>, a: seq<Block>, ga: seq<bool>,
                      p: Block, b: seq<Block>, gb: seq<bool>)
    requires WellFormed(parents) && child in parents && (forall q :: q in ps ==> q in parents[child])
    requires p in parents[child] && ClimbedAll(parents, f, child, ps, a, ga) && Climbed(parents, f, p, b, gb)
    ensures ClimbedAll(parents, f, child, ps + [p], a + b, ga + gb)
  {
    OneMoreTraced(parents, f, child, a, p, b);
    ParentsAboveConcat(parents, f, a, ga, b, gb);
    OneMoreReached(f, ps, a, p, b);
    OneMorePushed(parents, f, child, ps, a, ga, p, b, gb);
  }

  /** A block whose lookup succeeded, and the walks from its parents. */
  lemma WithParents(parents: Parents, f: Frontier, child: Block, s: seq<Block>, good: seq<bool>)
    requires WellFormed(parents) && child in parents && !Stops(f, child)
    requires ClimbedAll(parents, f, child, parents[child], s, good)
    ensures Climbed(parents, f, child, [child] + s, [true] + good)
  {
    var t, g := [child] + s, [true] + good;
    GoodConcat([true], good);
    forall i | 0 <= i < |t|
      ensures AboveAt(parents, f, t, g, i)
    {
      assert t[i + 1..] == s[i..];
      if i > 0 {
        assert t[i] == s[i - 1] && g[i] == good[i - 1] && AboveAt(parents, f, s, good, i - 1);
      }
    }
  }

  /** A block whose lookup failed. */
  lemma Alone(parents: Parents, f: Frontier, child: Block)
    requires WellFormed(parents) && child in parents && !Stops(f, child)
    ensures Climbed(parents, f, child, [child], [false])
  {
    assert AncestorOrSelf(parents, child, child);
    assert ![false][0];
  }

  // ----- what a master emits -----

  /** What one shard's walk pushed, and which lookups of it succeeded. */
  datatype Climb = Climb(pushed: seq<Block>, good: seq<bool>)

  /** The lookup of the top itself failed; then nothing of this walk is emitted. */
  predicate Failed(w: Climb) {
    w.good != [] && !w.good[0]
  }

  ghost predicate ClimbsFrom(parents: Parents, f: Frontier, tops: seq<Block>, ws: seq<Climb>)
    requires WellFormed(parents) && forall b :: b in tops ==> b in parents
  {
    |ws| == |tops| && forall i :: 0 <= i < |ws| ==> ClimbAt(parents, f, tops, ws, i)
  }

  ghost predicate ClimbAt(parents: Parents, f: Frontier, tops: seq<Block>, ws: seq<Climb>, i: nat)
    requires WellFormed(parents) && (forall b :: b in tops ==> b in parents) && i < |ws| == |tops|
  {
    Climbed(parents, f, tops[i], ws[i].pushed, ws[i].good)
  }

  lemma ClimbsInit(parents: Parents, f: Frontier, tops: seq<Block>, ws: seq<Climb>)
    requires WellFormed(parents) && (forall b :: b in tops ==> b in parents)
    requires ClimbsFrom(parents, f, tops, ws) && ws != []
    ensures var n := |ws| - 1;
      && ClimbsFrom(parents, f, tops[..n], ws[..n])
      && Climbed(parents, f, tops[n], ws[n].pushed, ws[n].good)
  {
    var n := |ws| - 1;
    assert ClimbAt(parents, f, tops, ws, n);
    forall i | 0 <= i < n
      ensures ClimbAt(parents, f, tops[..n], ws[..n], i)
    {
      assert ClimbAt(parents, f, tops, ws, i);
    }
  }

  /** The blocks that are sent on, walk by walk, each from the top of the stack down. */
  function Emitted(ws: seq<Climb>): seq<Block> {
    if ws == [] then []
    else
      var last := ws[|ws| - 1];
      Emitted(ws[..|ws| - 1]) + if Failed(last) then [] else Reverse(last.pushed)
  }

  /** For each of them, whether its own lookup succeeded. */
  function Flags(ws: seq<Climb>): seq<bool> {
    if ws == [] then []
    else
      var last := ws[|ws| - 1];
      Flags(ws[..|ws| - 1]) + if Failed(last) then [] else Reverse(last.good)
  }

  /** The tops that go into the next frontier: those whose walks did not fail. */
  function Kept(tops: seq<Block>, ws: seq<Climb>): seq<Block>
    requires |tops| == |ws|
    decreases |tops|
  {
    if tops == [] then []
    else
      var n := |tops| - 1;
      Kept(tops[..n], ws[..n]) + if Failed(ws[n]) then [] else [tops[n]]
  }

  /** One walk more. */
  lemma OneMoreWalk(tops: seq<Block>, ws: seq<Climb>, top: Block, w: Climb)
    requires |tops| == |ws|
    ensures Emitted(ws + [w]) == Emitted(ws) + if Failed(w) then [] else Reverse(w.pushed)
    ensures Flags(ws + [w]) == Flags(ws) + if Failed(w) then [] else Reverse(w.good)
    ensures Kept(tops + [top], ws + [w]) == Kept(tops, ws) + if Failed(w) then [] else [top]
  {
    assert (ws + [w])[..|ws|] == ws && (tops + [top])[..|tops|] == tops;
  }

  lemma {:induction false} InKept(tops: seq<Block>, ws: seq<Climb>, b: Block)
    requires |tops| == |ws|
    ensures b in Kept(tops, ws) <==> KeptAt(tops, ws, b)
    decreases |tops|
  {
    if tops != [] {
      var n := |tops| - 1;
      OneMoreWalk(tops[..n], ws[..n], tops[n], ws[n]);
      assert tops[..n] + [tops[n]] == tops && ws[..n] + [ws[n]] == ws;
      InKept(tops[..n], ws[..n], b);
      KeptAtOneMore(tops, ws, b);
    }
  }

  predicate KeptAt(tops: seq<Block>, ws: seq<Climb>, b: Block)
    requires |tops| == |ws|
  {
    exists i :: 0 <= i < |tops| && tops[i] == b && !Failed(ws[i])
  }

  lemma KeptAtOneMore(tops: seq<Block>, ws: seq<Climb>, b: Block)
    requires |tops| == |ws| && tops != []
    ensures var n := |tops| - 1;
      KeptAt(tops, ws, b) <==> KeptAt(tops[..n], ws[..n], b) || (tops[n] == b && !Failed(ws[n]))
  {
    var n := |tops| - 1;
    if KeptAt(tops, ws, b) {
      var i :| 0 <= i < |tops| && tops[i] == b && !Failed(ws[i]);
      assert i < n ==> tops[..n][i] == b && !Failed(ws[..n][i]);
    }
    if KeptAt(tops[..n], ws[..n], b) {
      var i :| 0 <= i < n && tops[..n][i] == b && !Failed(ws[..n][i]);
      assert tops[i] == b && !Failed(ws[i]);
    }
  }

  predicate AllAnswered(ws: seq<Climb>) {
    forall i :: 0 <= i < |ws| ==> AllGood(ws[i].good)
  }

  function TotalMisses(ws: seq<Climb>): nat {
    if ws == [] then 0 else TotalMisses(ws[..|ws| - 1]) + Misses(ws[|ws| - 1].good)
  }

  lemma {:induction false} AllAnsweredMisses(ws: seq<Climb>)
    ensures TotalMisses(ws) == 0 <==> AllAnswered(ws)
  {
    if ws != [] {
      var init := ws[..|ws| - 1];
      AllAnsweredMisses(init);
      AllGoodMisses(ws[|ws| - 1].good);
      assert forall i :: 0 <= i < |init| ==> init[i] == ws[i];
    }
  }

  predicate IsWalk(parents: Parents, f: Frontier, top: Block, w: Climb)
    requires WellFormed(parents) && top in parents
  {
    !Failed(w) && w.pushed == Pushed(parents, f, top)
  }

  lemma AnsweredWalks(parents: Parents, f: Frontier, tops: seq<Block>, ws: seq<Climb>)
    requires WellFormed(parents) && (forall b :: b in tops ==> b in parents)
    requires ClimbsFrom(parents, f, tops, ws) && AllAnswered(ws)
    ensures forall i :: 0 <= i < |ws| ==> IsWalk(parents, f, tops[i], ws[i])
  {
    forall i | 0 <= i < |ws|
      ensures IsWalk(parents, f, tops[i], ws[i])
    {
      assert ClimbAt(parents, f, tops, ws, i) && AllGood(ws[i].good);
    }
  }

  lemma {:induction false} NothingFailed(tops: seq<Block>, ws: seq<Climb>)
    requires |tops| == |ws| && forall i :: 0 <= i < |ws| ==> !Failed(ws[i])
    ensures Kept(tops, ws) == tops
    decreases |tops|
  {
    if tops != [] {
      var n := |tops| - 1;
      NothingFailed(tops[..n], ws[..n]);
      assert !Failed(ws[n]);
      assert Kept(tops, ws) == tops[..n] + [tops[n]];
    }
  }

  lemma {:induction false} WalksEmit(parents: Parents, f: Frontier, tops: seq<Block>, ws: seq<Climb>)
    requires WellFormed(parents) && (forall b :: b in tops ==> b in parents) && |tops| == |ws|
    requires forall i :: 0 <= i < |ws| ==> IsWalk(parents, f, tops[i], ws[i])
    ensures Emitted(ws) == Emissions(parents, f, tops)
    decreases |tops|
  {
    if ws == [] {
      assert tops == [];
    } else {
      var n := |ws| - 1;
      assert IsWalk(parents, f, tops[n], ws[n]);
      WalksEmit(parents, f, tops[..n], ws[..n]);
      assert Emitted(ws) == Emitted(ws[..n]) + Reverse(Pushed(parents, f, tops[n]));
    }
  }

  /** If no lookup fails for good, a master emits what the specification says, and keeps all its tops. */
  lemma AnsweredEmits(parents: Parents, f: Frontier, tops: seq<Block>, ws: seq<Climb>)
    requires WellFormed(parents) && (forall b :: b in tops ==> b in parents)
    requires ClimbsFrom(parents, f, tops, ws) && AllAnswered(ws)
    ensures Emitted(ws) == Emissions(parents, f, tops) && Kept(tops, ws) == tops
  {
    AnsweredWalks(parents, f, tops, ws);
    WalksEmit(parents, f, tops, ws);
    NothingFailed(tops, ws);
  }

  // ----- the order of what is emitted -----

  /**
   Whatever fails: every emitted block is uncovered and at or below one of the tops, it is a top or comes before one
   of its children, and if its own lookup succeeded it comes after each of its uncovered parents.
   */
  ghost predicate InOrder(parents: Parents, f: Frontier, tops: seq<Block>, s: seq<Block>, good: seq<bool>)
    requires WellFormed(parents) && forall b :: b in tops ==> b in parents
  {
    |good| == |s| && forall i :: 0 <= i < |s| ==> InOrderAt(parents, f, tops, s, good, i)
  }

  ghost predicate InOrderAt(parents: Parents, f: Frontier, tops: seq<Block>, s: seq<Block>, good: seq<bool>, i: nat)
    requires WellFormed(parents) && (forall b :: b in tops ==> b in parents) && i < |s| == |good|
  {
    && !Stops(f, s[i]) && BelowAny(parents, s[i], tops)
    && (s[i] in tops || ChildIn(parents, s[i], s[i + 1..]))
    && (good[i] ==> ParentsIn(parents, f, s[i], s[..i]))
  }

  lemma InOrderConcat(parents: Parents, f: Frontier, tops: seq<Block>, a: seq<Block>, ga: seq<bool>, b: seq<Block>,
                      gb: seq<bool>)
    requires WellFormed(parents) && (forall b :: b in tops ==> b in parents)
    requires InOrder(parents, f, tops, a, ga) && InOrder(parents, f, tops, b, gb)
    ensures InOrder(parents, f, tops, a + b, ga + gb)
  {
    var s, g := a + b, ga + gb;
    forall i | 0 <= i < |s|
      ensures InOrderAt(parents, f, tops, s, g, i)
    {
      if i < |a| {
        assert InOrderAt(parents, f, tops, a, ga, i);
        assert s[i] == a[i] && s[i + 1..] == a[i + 1..] + b && s[..i] == a[..i];
        if s[i] !in tops {
          ChildInMore(parents, s[i], a[i + 1..], s[i + 1..]);
        }
      } else {
        assert InOrderAt(parents, f, tops, b, gb, i - |a|);
        assert s[i] == b[i - |a|] && s[i + 1..] == b[i - |a| + 1..] && s[..i] == a + b[..i - |a|];
      }
    }
  }

  /** Taking the stack apart turns the order around. */
  lemma ReversedParts<T>(s: seq<T>, k: nat, x: T)
    requires k < |s|
    ensures |Reverse(s)| == |s| && Reverse(s)[|s| - 1 - k] == s[k]
    ensures x in s[..k] ==> x in Reverse(s)[|s| - k..]
    ensures x in s[k + 1..] ==> x in Reverse(s)[..|s| - 1 - k]
  {
    ReverseAt(s, k);
    if j :| 0 <= j < k && s[j] == x {
      ReverseAt(s, j);
      assert Reverse(s)[|s| - k..][k - 1 - j] == x;
    }
    if j :| k < j < |s| && s[j] == x {
      ReverseAt(s, j);
      assert Reverse(s)[..|s| - 1 - k][|s| - 1 - j] == x;
    }
  }

  lemma ClimbInOrderAt(parents: Parents, f: Frontier, tops: seq<Block>, top: Block, w: Climb, k: nat)
    requires WellFormed(parents) && (forall b :: b in tops ==> b in parents) && top in tops
    requires |w.good| == |w.pushed| && k < |w.pushed| && TracedAt(parents, f, top, w.pushed, k)
    requires w.good[k] ==> ParentsIn(parents, f, w.pushed[k], w.pushed[k + 1..])
    ensures |Reverse(w.pushed)| == |Reverse(w.good)| == |w.pushed|
    ensures InOrderAt(parents, f, tops, Reverse(w.pushed), Reverse(w.good), |w.pushed| - 1 - k)
  {
    var s, r := w.pushed, Reverse(w.pushed);
    var i := |s| - 1 - k;
    ReverseAt(w.good, k);
    ReversedParts(s, k, top);
    assert BelowAny(parents, r[i], tops) by {
      assert top in tops && AncestorOrSelf(parents, s[k], top);
    }
    if s[k] != top {
      var c :| c in s[..k] && c in parents && s[k] in parents[c];
      ReversedParts(s, k, c);
      assert |s| - k == i + 1 && c in r[i + 1..];
    }
    if w.good[k] {
      forall p | p in parents[s[k]] && !Stops(f, p)
        ensures p in r[..i]
      {
        ReversedParts(s, k, p);
      }
    }
  }

  lemma ClimbInOrder(parents: Parents, f: Frontier, tops: seq<Block>, top: Block, w: Climb)
    requires WellFormed(parents) && (forall b :: b in tops ==> b in parents) && top in tops
    requires Climbed(parents, f, top, w.pushed, w.good)
    ensures InOrder(parents, f, tops, Reverse(w.pushed), Reverse(w.good))
  {
    var s, r, g := w.pushed, Reverse(w.pushed), Reverse(w.good);
    if s != [] {
      ReverseAt(s, 0);
      ReverseAt(w.good, 0);
    }
    forall i | 0 <= i < |r|
      ensures InOrderAt(parents, f, tops, r, g, i)
    {
      assert AboveAt(parents, f, s, w.good, |s| - 1 - i);
      ClimbInOrderAt(parents, f, tops, top, w, |s| - 1 - i);
    }
  }

  lemma InOrderOneMore(parents: Parents, f: Frontier, all: seq<Block>, ws: seq<Climb>, top: Block, w: Climb)
    requires WellFormed(parents) && (forall b :: b in all ==> b in parents) && top in all
    requires InOrder(parents, f, all, Emitted(ws), Flags(ws)) && Climbed(parents, f, top, w.pushed, w.good)
    ensures InOrder(parents, f, all, Emitted(ws + [w]), Flags(ws + [w]))
  {
    OneMoreWalk(seq(|ws|, _ => top), ws, top, w);
    if Failed(w) {
      assert Emitted(ws + [w]) == Emitted(ws) && Flags(ws + [w]) == Flags(ws);
    } else {
      ClimbInOrder(parents, f, all, top, w);
      InOrderConcat(parents, f, all, Emitted(ws), Flags(ws), Reverse(w.pushed), Reverse(w.good));
    }
  }

  lemma {:induction false} EmittedInOrder(parents: Parents, f: Frontier, all: seq<Block>, tops: seq<Block>,
                                          ws: seq<Climb>)
    requires WellFormed(parents) && (forall b :: b in all ==> b in parents) && (forall b :: b in tops ==> b in all)
    requires ClimbsFrom(parents, f, tops, ws)
    ensures InOrder(parents, f, all, Emitted(ws), Flags(ws))
    decreases |ws|
  {
    if ws != [] {
      var n := |ws| - 1;
      ClimbsInit(parents, f, tops, ws);
      EmittedInOrder(parents, f, all, tops[..n], ws[..n]);
      InOrderOneMore(parents, f, all, ws[..n], tops[n], ws[n]);
      assert ws[..n] + [ws[n]] == ws;
    }
  }
}
