/** What the observer emits over whole runs of master blocks, when every block lookup succeeds. */
module Coverage {
  import opened Shards
  import opened Walk

  /** The shard list of a master block, in any order. */
  ghost predicate ListsTops(shards: seq<Block>, t: Tree) {
    forall b :: b in shards <==> IsTop(t, b)
  }

  /** The frontier after a master with these shards. */
  function FrontierOf(shards: seq<Block>): Frontier {
    if shards == [] then map[]
    else
      var last := shards[|shards| - 1];
      FrontierOf(shards[..|shards| - 1])[last.shard := last.seqno]
  }

  lemma {:induction false} FrontierEntries(shards: seq<Block>)
    ensures forall b :: b in shards ==> b.shard in FrontierOf(shards)
    ensures forall s :: s in FrontierOf(shards) ==> Block(s, FrontierOf(shards)[s]) in shards
  {
    if shards != [] {
      FrontierEntries(shards[..|shards| - 1]);
      assert shards == shards[..|shards| - 1] + [shards[|shards| - 1]];
    }
  }

  lemma FrontierOfTops(shards: seq<Block>, t: Tree)
    requires ListsTops(shards, t)
    ensures IsFrontier(FrontierOf(shards), t) && FrontierOf(shards) != map[]
  {
    var f := FrontierOf(shards);
    FrontierEntries(shards);
    forall s
      ensures (s in f <==> Top(t, s).Some?) && (s in f ==> f[s] == Top(t, s).value)
    {
      if s in f {
        assert IsTop(t, Block(s, f[s]));
      }
      if Top(t, s).Some? {
        assert IsTop(t, Block(s, Top(t, s).value));
      }
    }
    TopIsCover(t, []);
    assert Cover(t, []) in f;
  }

  /** What one master makes the observer emit: for each shard, the pushed blocks from the top of the stack down. */
  function Emissions(parents: Parents, f: Frontier, shards: seq<Block>): seq<Block>
    requires WellFormed(parents) && forall b :: b in shards ==> b in parents
  {
    if shards == [] then []
    else
      var last := shards[|shards| - 1];
      Emissions(parents, f, shards[..|shards| - 1]) + Reverse(Pushed(parents, f, last))
  }

  predicate AllKnown(parents: Parents, lists: seq<seq<Block>>) {
    forall i, b :: 0 <= i < |lists| && b in lists[i] ==> b in parents
  }

  /** Without a frontier there is nothing to walk back to: the shards themselves are emitted. */
  function Handled(parents: Parents, f: Frontier, shards: seq<Block>): seq<Block>
    requires WellFormed(parents) && forall b :: b in shards ==> b in parents
  {
    if f == map[] then shards else Emissions(parents, f, shards)
  }

  /** The frontier when the masters so far have been handled. */
  function FrontierAfter(lists: seq<seq<Block>>): Frontier {
    if lists == [] then map[] else FrontierOf(lists[|lists| - 1])
  }

  /** What a run of masters makes the observer emit. */
  function Observed(parents: Parents, lists: seq<seq<Block>>): seq<Block>
    requires WellFormed(parents) && AllKnown(parents, lists)
  {
    if lists == [] then []
    else
      var before := lists[..|lists| - 1];
      Observed(parents, before) + Handled(parents, FrontierAfter(before), lists[|lists| - 1])
  }

  lemma {:induction false} InReverse(s: seq<Block>, x: Block)
    ensures x in Reverse(s) <==> x in s
  {
    if s != [] {
      InReverse(s[1..], x);
      assert s == [s[0]] + s[1..];
    }
  }

  lemma {:induction false} InEmissions(parents: Parents, f: Frontier, shards: seq<Block>, x: Block)
    requires WellFormed(parents) && forall b :: b in shards ==> b in parents
    ensures x in Emissions(parents, f, shards) <==> exists b :: b in shards && x in Pushed(parents, f, b)
  {
    if shards != [] {
      var init, last := shards[..|shards| - 1], shards[|shards| - 1];
      assert shards == init + [last];
      InEmissions(parents, f, init, x);
      InReverse(Pushed(parents, f, last), x);
      if b :| b in shards && x in Pushed(parents, f, b) {
        assert b in init || b == last;
      }
    }
  }

  // ----- runs of masters over one history -----

  /** The masters of a run: ever later positions of the history, with gaps, and their shard lists. */
  ghost predicate Masters(h: seq<Move>, ks: seq<nat>, lists: seq<seq<Block>>) {
    && Valid(h) && |ks| == |lists|
    && (forall i :: 0 <= i < |ks| ==> ks[i] <= |h| && Valid(h[..ks[i]]) && ListsTops(lists[i], TreeOf(h[..ks[i]])))
    && (forall i, j :: 0 <= i < j < |ks| ==> ks[i] <= ks[j])
  }

  lemma MastersKnown(h: seq<Move>, ks: seq<nat>, lists: seq<seq<Block>>)
    requires Masters(h, ks, lists)
    ensures WellFormed(Archive(h)) && AllKnown(Archive(h), lists)
  {
    ArchiveWellFormed(h);
    forall i, b | 0 <= i < |lists| && b in lists[i]
      ensures b in Archive(h)
    {
      ArchiveWellFormed(h[..ks[i]]);
      ArchiveExtends(h, ks[i]);
    }
  }

  /** At or below one of these tops. */
  ghost predicate BelowAny(parents: Parents, x: Block, shards: seq<Block>)
    requires WellFormed(parents) && forall b :: b in shards ==> b in parents
  {
    exists top :: top in shards && AncestorOrSelf(parents, x, top)
  }

  /** The blocks that exist at a position are those at or below its tops. */
  lemma ArchivedIffBelowTop(h: seq<Move>, k: nat, shards: seq<Block>, x: Block)
    requires Valid(h) && k <= |h| && Valid(h[..k]) && ListsTops(shards, TreeOf(h[..k]))
    requires WellFormed(Archive(h)) && forall b :: b in shards ==> b in Archive(h)
    ensures x in Archive(h[..k]) <==> BelowAny(Archive(h), x, shards)
  {
    ArchiveWellFormed(h[..k]);
    ArchiveExtends(h, k);
    if x in Archive(h[..k]) {
      var top := EveryBlockIsBelowATop(h[..k], h, x);
    }
    if top :| top in shards && AncestorOrSelf(Archive(h), x, top) {
      AncestorsAreOlder(Archive(h), Archive(h[..k]), x, top);
    }
  }

  /** A top at a later position passes the frontier's test exactly if it was there at the earlier one. */
  lemma TopTest(h: seq<Move>, j: nat, k: nat, f: Frontier, top: Block)
    requires Valid(h) && j <= k <= |h| && Valid(h[..j]) && Valid(h[..k])
    requires IsFrontier(f, TreeOf(h[..j])) && IsTop(TreeOf(h[..k]), top)
    ensures Stops(f, top) <==> top in Archive(h[..j])
  {
    assert h[..k][..j] == h[..j];
    ArchiveWellFormed(h[..k]);
    if top in Archive(h[..j]) {
      StillTop(h[..k], j, top);
    }
    TestIsCovered(h[..k], j, f, top);
  }

  /** One master emits exactly the blocks that have appeared since the last one, however many masters were skipped. */
  lemma StepCovers(h: seq<Move>, ks: seq<nat>, lists: seq<seq<Block>>, i: nat, x: Block)
    requires Masters(h, ks, lists) && 0 < i < |ks| && WellFormed(Archive(h)) && AllKnown(Archive(h), lists)
    ensures x in Emissions(Archive(h), FrontierOf(lists[i - 1]), lists[i])
            <==> x in Archive(h[..ks[i]]) && x !in Archive(h[..ks[i - 1]])
  {
    var j, k := ks[i - 1], ks[i];
    var f := FrontierOf(lists[i - 1]);
    FrontierOfTops(lists[i - 1], TreeOf(h[..j]));
    FrontierIsSharp(h, j, f);
    InEmissions(Archive(h), f, lists[i], x);
    ArchivedIffBelowTop(h, k, lists[i], x);
    forall top | top in lists[i]
      ensures x in Pushed(Archive(h), f, top) <==> AncestorOrSelf(Archive(h), x, top) && x !in Archive(h[..j])
    {
      TopTest(h, j, k, f, top);
      PushedExactly(Archive(h), Archive(h[..j]), f, top, x);
    }
  }

  lemma Later(h: seq<Move>, j: nat, k: nat, x: Block)
    requires Valid(h) && j <= k <= |h| && Valid(h[..j]) && Valid(h[..k]) && x in Archive(h[..j])
    ensures x in Archive(h[..k])
  {
    assert h[..k][..j] == h[..j];
    ArchiveGrows(h[..k], j, x);
  }

  /** The first master is emitted as it is, every later one by a walk. */
  lemma ObservedSteps(h: seq<Move>, ks: seq<nat>, lists: seq<seq<Block>>)
    requires Masters(h, ks, lists) && ks != [] && WellFormed(Archive(h)) && AllKnown(Archive(h), lists)
    ensures var n := |lists| - 1;
      Observed(Archive(h), lists) ==
        if n == 0 then lists[0]
        else Observed(Archive(h), lists[..n]) + Emissions(Archive(h), FrontierOf(lists[n - 1]), lists[n])
  {
    var n := |lists| - 1;
    if n > 0 {
      FrontierOfTops(lists[n - 1], TreeOf(h[..ks[n - 1]]));
    }
    ObservedUnfolds(Archive(h), lists);
  }

  lemma ObservedUnfolds(parents: Parents, lists: seq<seq<Block>>)
    requires WellFormed(parents) && AllKnown(parents, lists) && lists != []
    requires |lists| > 1 ==> FrontierOf(lists[|lists| - 2]) != map[]
    ensures var n := |lists| - 1;
      Observed(parents, lists) ==
        if n == 0 then lists[0]
        else Observed(parents, lists[..n]) + Emissions(parents, FrontierOf(lists[n - 1]), lists[n])
  {
    var n := |lists| - 1;
    var before := lists[..n];
    assert Observed(parents, lists) == Observed(parents, before) + Handled(parents, FrontierAfter(before), lists[n]);
    if n == 0 {
      assert before == [] && Observed(parents, before) == [] && FrontierAfter(before) == map[];
    } else {
      assert before[n - 1] == lists[n - 1] && FrontierAfter(before) == FrontierOf(lists[n - 1]);
    }
  }

  lemma MastersPrefix(h: seq<Move>, ks: seq<nat>, lists: seq<seq<Block>>, n: nat)
    requires Masters(h, ks, lists) && 0 < n <= |ks| && WellFormed(Archive(h)) && AllKnown(Archive(h), lists)
    ensures Masters(h, ks[..n], lists[..n]) && AllKnown(Archive(h), lists[..n])
    ensures lists[..n][0] == lists[0] && ks[..n][0] == ks[0]
  {
  }

  /** Blocks that appeared between the first and the last master of a run. */
  ghost predicate NewBetween(h: seq<Move>, j: nat, k: nat, x: Block)
    requires Valid(h) && j <= k <= |h| && Valid(h[..j]) && Valid(h[..k])
  {
    x in Archive(h[..k]) && x !in Archive(h[..j])
  }

  lemma NewInSteps(h: seq<Move>, i: nat, j: nat, k: nat, x: Block)
    requires Valid(h) && i <= j <= k <= |h| && Valid(h[..i]) && Valid(h[..j]) && Valid(h[..k])
    ensures NewBetween(h, i, k, x) <==> NewBetween(h, i, j, x) || NewBetween(h, j, k, x)
  {
    if x in Archive(h[..j]) {
      Later(h, j, k, x);
    }
    if x in Archive(h[..i]) {
      Later(h, i, j, x);
    }
  }

  lemma {:induction false} RunCovers(h: seq<Move>, ks: seq<nat>, lists: seq<seq<Block>>, x: Block)
    requires Masters(h, ks, lists) && ks != [] && WellFormed(Archive(h)) && AllKnown(Archive(h), lists)
    ensures x in Observed(Archive(h), lists) <==> x in lists[0] || NewBetween(h, ks[0], ks[|ks| - 1], x)
    decreases |ks|
  {
    var n := |ks| - 1;
    ObservedSteps(h, ks, lists);
    if n > 0 {
      MastersPrefix(h, ks, lists, n);
      RunCovers(h, ks[..n], lists[..n], x);
      StepCovers(h, ks, lists, n, x);
      NewInSteps(h, ks[0], ks[n - 1], ks[n], x);
    }
  }

  ghost predicate BelowLater(parents: Parents, x: Block, lists: seq<seq<Block>>)
    requires WellFormed(parents) && AllKnown(parents, lists)
  {
    exists i :: 0 < i < |lists| && BelowAny(parents, x, lists[i])
  }

  lemma KnownAtMaster(h: seq<Move>, ks: seq<nat>, lists: seq<seq<Block>>, i: nat, x: Block)
    requires Masters(h, ks, lists) && i < |ks| && WellFormed(Archive(h)) && AllKnown(Archive(h), lists)
    ensures x in Archive(h[..ks[i]]) <==> BelowAny(Archive(h), x, lists[i])
  {
    ArchivedIffBelowTop(h, ks[i], lists[i], x);
  }

  /** Whatever some master of the run knows, the last one knows. */
  lemma KnownAtLast(h: seq<Move>, ks: seq<nat>, lists: seq<seq<Block>>, i: nat, x: Block)
    requires Masters(h, ks, lists) && i < |ks| && WellFormed(Archive(h)) && AllKnown(Archive(h), lists)
    ensures BelowAny(Archive(h), x, lists[i]) ==> x in Archive(h[..ks[|ks| - 1]])
  {
    KnownAtMaster(h, ks, lists, i, x);
    if x in Archive(h[..ks[i]]) {
      LaterMaster(h, ks, lists, i, x);
    }
  }

  lemma LaterMaster(h: seq<Move>, ks: seq<nat>, lists: seq<seq<Block>>, i: nat, x: Block)
    requires Masters(h, ks, lists) && i < |ks| && x in Archive(h[..ks[i]])
    ensures x in Archive(h[..ks[|ks| - 1]])
  {
    Later(h, ks[i], ks[|ks| - 1], x);
  }

  lemma IntroLater(parents: Parents, x: Block, lists: seq<seq<Block>>, i: nat)
    requires WellFormed(parents) && AllKnown(parents, lists) && 0 < i < |lists| && BelowAny(parents, x, lists[i])
    ensures BelowLater(parents, x, lists)
  {
  }

  lemma NewIsBelowLater(h: seq<Move>, ks: seq<nat>, lists: seq<seq<Block>>, x: Block)
    requires Masters(h, ks, lists) && ks != [] && WellFormed(Archive(h)) && AllKnown(Archive(h), lists)
    requires NewBetween(h, ks[0], ks[|ks| - 1], x)
    ensures BelowLater(Archive(h), x, lists) && !BelowAny(Archive(h), x, lists[0])
  {
    var n := |ks| - 1;
    KnownAtMaster(h, ks, lists, 0, x);
    if n == 0 {
      assert false;
    } else {
      KnownAtMaster(h, ks, lists, n, x);
      IntroLater(Archive(h), x, lists, n);
    }
  }

  lemma BelowLaterIsNew(h: seq<Move>, ks: seq<nat>, lists: seq<seq<Block>>, x: Block)
    requires Masters(h, ks, lists) && ks != [] && WellFormed(Archive(h)) && AllKnown(Archive(h), lists)
    requires BelowLater(Archive(h), x, lists) && !BelowAny(Archive(h), x, lists[0])
    ensures NewBetween(h, ks[0], ks[|ks| - 1], x)
  {
    var i :| 0 < i < |lists| && BelowAny(Archive(h), x, lists[i]);
    KnownAtLast(h, ks, lists, i, x);
    KnownAtMaster(h, ks, lists, 0, x);
  }

  /**
   Coverage: whatever masters the observer gets to see, and however many it misses in between, the shard blocks
   it emits are exactly the first tops and every block at or below a later top that is not at or below a first top.
   */
  lemma EmitsExactlyTheNew(h: seq<Move>, ks: seq<nat>, lists: seq<seq<Block>>, x: Block)
    requires Masters(h, ks, lists) && ks != []
    ensures WellFormed(Archive(h)) && AllKnown(Archive(h), lists)
    ensures x in Observed(Archive(h), lists)
            <==> x in lists[0] || (BelowLater(Archive(h), x, lists) && !BelowAny(Archive(h), x, lists[0]))
  {
    MastersKnown(h, ks, lists);
    RunCovers(h, ks, lists, x);
    if NewBetween(h, ks[0], ks[|ks| - 1], x) {
      NewIsBelowLater(h, ks, lists, x);
    }
    if BelowLater(Archive(h), x, lists) && !BelowAny(Archive(h), x, lists[0]) {
      BelowLaterIsNew(h, ks, lists, x);
    }
  }

  /** No block is emitted for two masters. */
  lemma EmittedForOneMaster(h: seq<Move>, ks: seq<nat>, lists: seq<seq<Block>>, i: nat, j: nat, x: Block)
    requires Masters(h, ks, lists) && 0 < i < j < |ks| && WellFormed(Archive(h)) && AllKnown(Archive(h), lists)
    requires x in Emissions(Archive(h), FrontierOf(lists[i - 1]), lists[i])
    ensures x !in Emissions(Archive(h), FrontierOf(lists[j - 1]), lists[j])
  {
    StepCovers(h, ks, lists, i, x);
    StepCovers(h, ks, lists, j, x);
    Later(h, ks[i], ks[j - 1], x);
  }

  // ----- order -----

  /** Every block comes after those of its parents that the test does not stop at. */
  predicate ParentsFirst(parents: Parents, f: Frontier, s: seq<Block>) {
    forall i :: 0 <= i < |s| ==> s[i] in parents && forall p :: p in parents[s[i]] && !Stops(f, p) ==> p in s[..i]
  }

  lemma ReverseLaterIsFirst(parents: Parents, f: Frontier, s: seq<Block>)
    requires ParentsLater(parents, f, s)
    ensures ParentsFirst(parents, f, Reverse(s))
  {
    var r := Reverse(s);
    if s != [] { ReverseAt(s, 0); }
    forall i | 0 <= i < |r|
      ensures r[i] in parents && forall p :: p in parents[r[i]] && !Stops(f, p) ==> p in r[..i]
    {
      var k := |s| - 1 - i;
      ReverseAt(s, k);
      forall p | p in parents[s[k]] && !Stops(f, p)
        ensures p in r[..i]
      {
        assert p in s[k + 1..];
        var j :| k < j < |s| && s[j] == p;
        ReverseAt(s, j);
        assert r[..i][|s| - 1 - j] == p;
      }
    }
  }

  lemma ParentsFirstConcat(parents: Parents, f: Frontier, a: seq<Block>, b: seq<Block>)
    requires ParentsFirst(parents, f, a) && ParentsFirst(parents, f, b)
    ensures ParentsFirst(parents, f, a + b)
  {
    forall i | 0 <= i < |a + b|
      ensures (a + b)[i] in parents && forall p :: p in parents[(a + b)[i]] && !Stops(f, p) ==> p in (a + b)[..i]
    {
      if i < |a| {
        assert (a + b)[i] == a[i] && (a + b)[..i] == a[..i];
      } else {
        assert (a + b)[i] == b[i - |a|] && (a + b)[..i] == a + b[..i - |a|];
      }
    }
  }

  /** The stack turns the walk around: for one master, ancestors come out first. */
  lemma {:induction false} EmissionsOrder(parents: Parents, f: Frontier, shards: seq<Block>)
    requires WellFormed(parents) && forall b :: b in shards ==> b in parents
    ensures ParentsFirst(parents, f, Emissions(parents, f, shards))
  {
    if shards != [] {
      var init, last := shards[..|shards| - 1], shards[|shards| - 1];
      EmissionsOrder(parents, f, init);
      PushedOrder(parents, f, last);
      ReverseLaterIsFirst(parents, f, Pushed(parents, f, last));
      ParentsFirstConcat(parents, f, Emissions(parents, f, init), Reverse(Pushed(parents, f, last)));
    }
  }

  /** From position `from` on, every block comes after each of its parents, except those in `known`. */
  predicate AncestorsFirst(parents: Parents, known: Parents, from: nat, s: seq<Block>) {
    forall i :: from <= i < |s| ==>
      s[i] in parents && forall p :: p in parents[s[i]] ==> p in s[..i] || p in known
  }

  lemma AncestorsFirstConcat(parents: Parents, known: Parents, mid: Parents, from: nat, a: seq<Block>, b: seq<Block>)
    requires AncestorsFirst(parents, known, from, a) && AncestorsFirst(parents, mid, 0, b) && from <= |a|
    requires forall p :: p in mid ==> p in a || p in known
    ensures AncestorsFirst(parents, known, from, a + b)
  {
    forall i | from <= i < |a + b|
      ensures (a + b)[i] in parents && forall p :: p in parents[(a + b)[i]] ==> p in (a + b)[..i] || p in known
    {
      if i < |a| {
        assert (a + b)[i] == a[i] && (a + b)[..i] == a[..i];
      } else {
        assert (a + b)[i] == b[i - |a|] && (a + b)[..i] == a + b[..i - |a|];
      }
    }
  }

  lemma MasterOrder(h: seq<Move>, ks: seq<nat>, lists: seq<seq<Block>>, n: nat)
    requires Masters(h, ks, lists) && 0 < n < |ks| && WellFormed(Archive(h)) && AllKnown(Archive(h), lists)
    ensures AncestorsFirst(Archive(h), Archive(h[..ks[n - 1]]), 0,
                           Emissions(Archive(h), FrontierOf(lists[n - 1]), lists[n]))
  {
    var f := FrontierOf(lists[n - 1]);
    var step := Emissions(Archive(h), f, lists[n]);
    EmissionsOrder(Archive(h), f, lists[n]);
    FrontierOfTops(lists[n - 1], TreeOf(h[..ks[n - 1]]));
    FrontierIsSharp(h, ks[n - 1], f);
    forall i | 0 <= i < |step|
      ensures forall p :: p in Archive(h)[step[i]] ==> p in step[..i] || p in Archive(h[..ks[n - 1]])
    {
      assert step[i] in step;
      StepCovers(h, ks, lists, n, step[i]);
    }
  }

  lemma EverythingSoFar(h: seq<Move>, ks: seq<nat>, lists: seq<seq<Block>>)
    requires Masters(h, ks, lists) && ks != [] && WellFormed(Archive(h)) && AllKnown(Archive(h), lists)
    ensures forall p :: p in Archive(h[..ks[|ks| - 1]]) ==> p in Observed(Archive(h), lists) || p in Archive(h[..ks[0]])
  {
    forall p | p in Archive(h[..ks[|ks| - 1]])
      ensures p in Observed(Archive(h), lists) || p in Archive(h[..ks[0]])
    {
      RunCovers(h, ks, lists, p);
    }
  }

  /** What is emitted after the first list comes after its parents, except parents that are in `known`. */
  predicate OrderedRun(parents: Parents, known: Parents, lists: seq<seq<Block>>)
    requires WellFormed(parents) && AllKnown(parents, lists) && lists != []
  {
    && |Observed(parents, lists)| >= |lists[0]|
    && AncestorsFirst(parents, known, |lists[0]|, Observed(parents, lists))
  }

  /**
   Order over a whole run: every block that is emitted after the first tops comes after each of its parents,
   except parents that are as old as the first tops.
   */
  lemma {:induction false} RunOrder(h: seq<Move>, ks: seq<nat>, lists: seq<seq<Block>>)
    requires Masters(h, ks, lists) && ks != [] && WellFormed(Archive(h)) && AllKnown(Archive(h), lists)
    ensures OrderedRun(Archive(h), Archive(h[..ks[0]]), lists)
    decreases |ks|
  {
    var n := |ks| - 1;
    ObservedSteps(h, ks, lists);
    if n > 0 {
      MastersPrefix(h, ks, lists, n);
      RunOrder(h, ks[..n], lists[..n]);
      OrderedStep(h, ks, lists);
    }
  }

  lemma OrderedStep(h: seq<Move>, ks: seq<nat>, lists: seq<seq<Block>>)
    requires Masters(h, ks, lists) && |ks| > 1 && WellFormed(Archive(h)) && AllKnown(Archive(h), lists)
    requires OrderedRun(Archive(h), Archive(h[..ks[0]]), lists[..|ks| - 1])
    ensures OrderedRun(Archive(h), Archive(h[..ks[0]]), lists)
  {
    var n := |ks| - 1;
    MastersPrefix(h, ks, lists, n);
    EverythingSoFar(h, ks[..n], lists[..n]);
    MasterOrder(h, ks, lists, n);
    ObservedSteps(h, ks, lists);
    AncestorsFirstConcat(Archive(h), Archive(h[..ks[0]]), Archive(h[..ks[n - 1]]), |lists[0]|,
                         Observed(Archive(h), lists[..n]),
                         Emissions(Archive(h), FrontierOf(lists[n - 1]), lists[n]));
  }
}
