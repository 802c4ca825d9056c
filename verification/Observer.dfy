/**
 The observer as it runs: a stack shared by the recursive walk, retry loops around every lookup, and a frontier
 map that is replaced master by master.
 */
module Observer {
  import opened Decimal
  import opened Shards
  import opened Walk
  import opened Coverage
  import opened Climbs

  datatype Answer<+T> = Found(value: T) | NotReady | Refused

  const ATTEMPTS_LIMIT: nat := 3

  /** A server that answers every lookup, or, if it is not reliable, one that may fail any of them. */
  class Liteserver {
    const parents: Parents
    const reliable: bool
    var lookups: nat
    var failures: nat
    /** How often it did not answer for a master block. */
    var refusals: nat

    constructor (parents: Parents, reliable: bool)
      ensures this.parents == parents && this.reliable == reliable && lookups == failures == refusals == 0
    {
      this.parents, this.reliable, lookups, failures, refusals := parents, reliable, 0, 0, 0;
    }

    method GetBlockData(b: Block) returns (r: Answer<seq<Block>>)
      requires b in parents
      modifies this`lookups, this`failures
      ensures lookups == old(lookups) + 1
      ensures failures == old(failures) + if r.Found? then 0 else 1
      ensures r.Found? ==> r.value == parents[b]
      ensures reliable ==> r.Found?
    {
      lookups := lookups + 1;
      var trouble: Answer<seq<Block>> := *;
      if reliable || trouble.Found? {
        r := Found(parents[b]);
      } else {
        failures := failures + 1;
        r := trouble;
      }
    }

    method GetBlockShardsInfo(master: seq<Block>) returns (r: Answer<seq<Block>>)
      modifies this`refusals
      ensures refusals == old(refusals) + if r.Found? then 0 else 1
      ensures r.Found? ==> r.value == master
      ensures reliable ==> r.Found?
    {
      var trouble: Answer<seq<Block>> := *;
      if reliable || trouble.Found? {
        r := Found(master);
      } else {
        refusals := refusals + 1;
        r := trouble;
      }
    }
  }

  class ShardStack {
    var items: seq<Block>

    constructor ()
      ensures items == []
    {
      items := [];
    }

    method Push(b: Block)
      modifies this
      ensures items == old(items) + [b]
    {
      items := items + [b];
    }

    method Pop() returns (top: Option<Block>)
      modifies this
      ensures old(items) == [] ==> top == None && items == []
      ensures old(items) != [] ==> top.Some? && old(items) == items + [top.value]
    {
      if |items| == 0 {
        return None;
      }
      top := Some(items[|items| - 1]);
      items := items[..|items| - 1];
    }
  }

  // ----- the stack turns a walk around -----

  lemma {:induction false} ReverseSnoc(s: seq<Block>, x: Block)
    ensures Reverse(s + [x]) == [x] + Reverse(s)
  {
    if s != [] {
      assert (s + [x])[1..] == s[1..] + [x];
      ReverseSnoc(s[1..], x);
    } else {
      assert (s + [x])[1..] == [];
    }
  }

  // ----- the masters that are forwarded -----

  /** The polled sequence numbers that exceed everything before them. */
  function Records(last: nat, polls: seq<Option<nat>>): seq<nat>
    decreases |polls|
  {
    if polls == [] then []
    else if polls[0].Some? && polls[0].value > last then [polls[0].value] + Records(polls[0].value, polls[1..])
    else Records(last, polls[1..])
  }

  predicate Rising(last: nat, s: seq<nat>) {
    (forall i :: 0 <= i < |s| ==> s[i] > last) && forall i, j :: 0 <= i < j < |s| ==> s[i] < s[j]
  }

  lemma {:induction false} RecordsRise(last: nat, polls: seq<Option<nat>>)
    ensures Rising(last, Records(last, polls))
    decreases |polls|
  {
    if polls != [] {
      RecordsRise(if polls[0].Some? && polls[0].value > last then polls[0].value else last, polls[1..]);
    }
  }

  /** Polls that fail, repeat or fall behind are skipped; everything else is forwarded. */
  lemma {:induction false} RecordsExactly(last: nat, polls: seq<Option<nat>>, x: nat)
    ensures x in Records(last, polls)
            <==> x > last && exists i :: 0 <= i < |polls| && polls[i] == Some(x)
                                         && forall j :: 0 <= j < i && polls[j].Some? ==> polls[j].value < x
    decreases |polls|
  {
    if polls != [] {
      var rest := polls[1..];
      var last' := if polls[0].Some? && polls[0].value > last then polls[0].value else last;
      RecordsExactly(last', rest, x);
      if x > last && x != last' {
        if i :| 0 <= i < |rest| && rest[i] == Some(x) && forall j :: 0 <= j < i && rest[j].Some? ==> rest[j].value < x {
          assert polls[i + 1] == Some(x);
          if x > last' {
            assert forall j :: 0 <= j < i + 1 && polls[j].Some? ==> polls[j].value < x by {
              assert forall j :: 0 < j < i + 1 ==> polls[j] == rest[j - 1];
            }
          }
        }
        if i :| 0 <= i < |polls| && polls[i] == Some(x)
                && forall j :: 0 <= j < i && polls[j].Some? ==> polls[j].value < x {
          if i > 0 {
            assert rest[i - 1] == Some(x);
            assert forall j :: 0 <= j < i - 1 ==> rest[j] == polls[j + 1];
          }
        }
      }
    }
  }

  method ObserveMasters(first: nat, polls: seq<Option<nat>>) returns (forwarded: seq<nat>)
    ensures forwarded == Records(first, polls) && Rising(first, forwarded)
  {
    RecordsRise(first, polls);
    forwarded := [];
    var last := first;
    for i := 0 to |polls|
      invariant forwarded + Records(last, polls[i..]) == Records(first, polls)
    {
      assert polls[i..][1..] == polls[i + 1..];
      if polls[i].Some? && polls[i].value > last {
        last := polls[i].value;
        forwarded := forwarded + [last];
      }
    }
  }

  // ----- the observer -----

  class Observer {
    const server: Liteserver
    var shards: Frontier
    var emitted: seq<Block>

    constructor (server: Liteserver)
      ensures this.server == server && shards == map[] && emitted == []
    {
      this.server, shards, emitted := server, map[], [];
    }

    /**
     Pushes `shard` and its uncovered ancestors.  Errors of the recursive calls are dropped.  No call does more than
     three lookups, also when they fail, and a call that stops does none.  A lookup is given up only after it has
     failed twice, so that a single failure in the whole walk does no harm.
     */
    method HandleShardBlock(shard: Block, stack: ShardStack) returns (ok: bool, ghost good: seq<bool>)
      requires WellFormed(server.parents) && shard in server.parents
      modifies server, stack
      ensures old(stack.items) <= stack.items
      ensures var pushed := stack.items[|old(stack.items)|..];
        && Climbed(server.parents, shards, shard, pushed, good) && ok == !Failed(Climb(pushed, good))
        && server.lookups - old(server.lookups) <= 3 * |pushed|
      ensures Tolerant(server.reliable, old(server.failures), server.failures, good)
      decreases shard.seqno, 1
    {
      ok, good := true, [];
      if shard.shard in shards && shards[shard.shard] >= shard.seqno {
        return;
      }
      stack.Push(shard);
      ghost var from := |old(stack.items)|;
      var attempts := 0;
      while attempts < ATTEMPTS_LIMIT
        invariant stack.items == old(stack.items) + [shard]
        invariant server.lookups <= old(server.lookups) + attempts
        invariant server.lookups <= old(server.lookups) + ATTEMPTS_LIMIT
        invariant 2 * (server.failures - old(server.failures)) >= attempts
        invariant server.reliable ==> attempts == 0
      {
        var answer := server.GetBlockData(shard);
        match answer
        case NotReady => attempts := attempts + 1;
        case Refused => attempts := attempts + 2;
        case Found(ps) =>
          ghost var rest := HandleParents(shard, ps, stack);
          good := [true] + rest;
          WithParents(server.parents, shards, shard, stack.items[from + 1..], rest);
          assert stack.items[from..] == [shard] + stack.items[from + 1..];
          return;
      }
      Alone(server.parents, shards, shard);
      assert stack.items[from..] == [shard];
      ok, good := false, [false];
    }

    /** The loop over the parents. */
    method HandleParents(child: Block, ps: seq<Block>, stack: ShardStack) returns (ghost good: seq<bool>)
      requires WellFormed(server.parents) && child in server.parents && ps == server.parents[child]
      requires !Stops(shards, child)
      modifies server, stack
      ensures old(stack.items) <= stack.items
      ensures ClimbedAll(server.parents, shards, child, ps, stack.items[|old(stack.items)|..], good)
      ensures server.lookups - old(server.lookups) <= 3 * (|stack.items| - |old(stack.items)|)
      ensures Tolerant(server.reliable, old(server.failures), server.failures, good)
      decreases child.seqno, 0
    {
      good := [];
      ghost var from := |old(stack.items)|;
      NoneYet(server.parents, shards, child);
      var i := 0;
      while i < |ps|
        invariant i <= |ps| && old(stack.items) <= stack.items
        invariant ClimbedAll(server.parents, shards, child, ps[..i], stack.items[from..], good)
        invariant server.lookups - old(server.lookups) <= ATTEMPTS_LIMIT * (|stack.items| - from)
        invariant Tolerant(server.reliable, old(server.failures), server.failures, good)
      {
        ghost var before, mid := stack.items, server.failures;
        var dropped, more := HandleShardBlock(ps[i], stack);
        NextParent(server.parents, shards, child, ps, i, from, before, good, stack.items, more);
        StillTolerant(server.reliable, old(server.failures), mid, server.failures, good, more);
        good := good + more;
        i := i + 1;
      }
      assert ps[..|ps|] == ps;
    }

    /**
     Handles one master block, given by its shard list, if the server answers for it.  The first master is sent on as
     it is, and every later one is walked back; `ws` are the walks.
     */
    method HandleNewMaster(master: seq<Block>) returns (ghost heard: bool, ghost ws: seq<Climb>)
      requires WellFormed(server.parents) && forall b :: b in master ==> b in server.parents
      modifies this, server
      ensures server.reliable ==> heard
      ensures !heard ==> shards == old(shards) && emitted == old(emitted) && server.refusals >= old(server.refusals) + 2
      ensures heard && old(shards) == map[] ==> shards == FrontierOf(master) && emitted == old(emitted) + master
      ensures heard && old(shards) != map[] ==> WalkedBack(server.parents, old(shards), master, ws, shards)
                                                && emitted == old(emitted) + Emitted(ws)
                                                && InOrder(server.parents, old(shards), master, Emitted(ws), Flags(ws))
                                                && Patient(server.reliable, old(server.failures), server.failures, ws)
      ensures heard && (server.reliable || server.failures <= old(server.failures) + 1) ==>
        && shards == FrontierOf(master)
        && emitted == old(emitted) + Handled(server.parents, old(shards), master)
    {
      heard, ws := false, [];
      var attempts := 0;
      while attempts < ATTEMPTS_LIMIT
        invariant !heard && shards == old(shards) && emitted == old(emitted) && server.failures == old(server.failures)
        invariant 2 * (server.refusals - old(server.refusals)) >= attempts
        invariant server.reliable ==> attempts == 0
      {
        var answer := server.GetBlockShardsInfo(master);
        match answer
        case NotReady => attempts := attempts + 1;
        case Refused => attempts := attempts + 2;
        case Found(blocks) =>
          heard := true;
          if |shards| == 0 {
            TakeFirst(blocks);
          } else {
            ws := WalkBack(blocks);
          }
          return;
      }
    }

    method TakeFirst(blocks: seq<Block>)
      requires shards == map[]
      modifies this
      ensures shards == FrontierOf(blocks) && emitted == old(emitted) + blocks
    {
      for i := 0 to |blocks|
        invariant shards == FrontierOf(blocks[..i]) && emitted == old(emitted) + blocks[..i]
      {
        shards := shards[blocks[i].shard := blocks[i].seqno];
        emitted := emitted + [blocks[i]];
        assert blocks[..i + 1] == blocks[..i] + [blocks[i]] && blocks[..i + 1][..i] == blocks[..i];
      }
      assert blocks[..|blocks|] == blocks;
    }

    /** The new frontier consists of exactly those tops whose own lookup did not fail. */
    method WalkBack(blocks: seq<Block>) returns (ghost ws: seq<Climb>)
      requires WellFormed(server.parents) && forall b :: b in blocks ==> b in server.parents
      modifies this, server
      ensures WalkedBack(server.parents, old(shards), blocks, ws, shards) && emitted == old(emitted) + Emitted(ws)
      ensures InOrder(server.parents, old(shards), blocks, Emitted(ws), Flags(ws))
      ensures Patient(server.reliable, old(server.failures), server.failures, ws)
      ensures server.reliable || server.failures <= old(server.failures) + 1 ==>
        shards == FrontierOf(blocks) && emitted == old(emitted) + Emissions(server.parents, old(shards), blocks)
    {
      var newShards;
      newShards, ws := EmitAll(blocks);
      WalksDone(server.parents, shards, blocks, ws, newShards);
      shards := newShards;
    }

    /** The loop over the shards of a master. */
    method EmitAll(blocks: seq<Block>) returns (newShards: Frontier, ghost ws: seq<Climb>)
      requires WellFormed(server.parents) && forall b :: b in blocks ==> b in server.parents
      modifies this`emitted, server
      ensures WalkedBack(server.parents, shards, blocks, ws, newShards) && emitted == old(emitted) + Emitted(ws)
      ensures Patient(server.reliable, old(server.failures), server.failures, ws)
    {
      ws, newShards := [], map[];
      ghost var done := [];
      for i := 0 to |blocks|
        invariant done == blocks[..i]
        invariant WalkedBack(server.parents, shards, done, ws, newShards)
        invariant emitted == old(emitted) + Emitted(ws)
        invariant Patient(server.reliable, old(server.failures), server.failures, ws)
      {
        ghost var w;
        newShards, w := EmitOne(blocks[i], newShards, done, ws, old(emitted), old(server.failures));
        ws, done := ws + [w], done + [blocks[i]];
      }
      assert done == blocks;
    }

    /** One shard of the loop; `done`, `ws`, `start` and `fails` say what has happened before. */
    method EmitOne(top: Block, sofar: Frontier, ghost done: seq<Block>, ghost ws: seq<Climb>, ghost start: seq<Block>,
                   ghost fails: nat) returns (newShards: Frontier, ghost w: Climb)
      requires WellFormed(server.parents) && top in server.parents && forall b :: b in done ==> b in server.parents
      requires WalkedBack(server.parents, shards, done, ws, sofar) && emitted == start + Emitted(ws)
      requires Patient(server.reliable, fails, server.failures, ws)
      modifies this`emitted, server
      ensures WalkedBack(server.parents, shards, done + [top], ws + [w], newShards)
      ensures emitted == start + Emitted(ws + [w])
      ensures Patient(server.reliable, fails, server.failures, ws + [w])
    {
      newShards := sofar;
      ghost var mid, before := server.failures, emitted;
      var ok;
      ok, w := EmitFrom(top);
      EmittedMore(start, before, emitted, ws, w);
      OneMoreBack(server.parents, shards, done, ws, sofar, top, w);
      StillPatient(server.reliable, fails, mid, server.failures, ws, w);
      if ok {
        newShards := newShards[top.shard := top.seqno];
      }
    }

    /** One shard: walk back, then empty the stack, unless the walk failed. */
    method EmitFrom(shard: Block) returns (ok: bool, ghost w: Climb)
      requires WellFormed(server.parents) && shard in server.parents
      modifies this`emitted, server
      ensures Climbed(server.parents, shards, shard, w.pushed, w.good) && ok == !Failed(w)
      ensures emitted == old(emitted) + if Failed(w) then [] else Reverse(w.pushed)
      ensures Tolerant(server.reliable, old(server.failures), server.failures, w.good)
    {
      var stack := new ShardStack();
      ghost var good;
      ok, good := HandleShardBlock(shard, stack);
      assert stack.items[0..] == stack.items;
      w := Climb(stack.items, good);
      if ok {
        EmptyStack(stack);
      }
    }

    method EmptyStack(stack: ShardStack)
      modifies this`emitted, stack
      ensures emitted == old(emitted) + Reverse(old(stack.items)) && stack.items == []
    {
      var top := stack.Pop();
      while top.Some?
        invariant top.None? ==> stack.items == []
        invariant emitted + Reverse(if top.Some? then stack.items + [top.value] else []) ==
                  old(emitted) + Reverse(old(stack.items))
        decreases if top.Some? then |stack.items| + 1 else 0
      {
        ReverseSnoc(stack.items, top.value);
        emitted := emitted + [top.value];
        top := stack.Pop();
      }
    }

    /** Handles master after master. */
    method HandleMasters(masters: seq<seq<Block>>)
      requires WellFormed(server.parents) && AllKnown(server.parents, masters)
      requires shards == map[] && emitted == []
      modifies this, server
      ensures server.reliable ==> shards == FrontierAfter(masters) && emitted == Observed(server.parents, masters)
    {
      for i := 0 to |masters|
        invariant server.reliable ==>
          shards == FrontierAfter(masters[..i]) && emitted == Observed(server.parents, masters[..i])
      {
        ghost var heard, ws := HandleNewMaster(masters[i]);
        assert masters[..i + 1][..i] == masters[..i];
      }
      assert masters[..|masters|] == masters;
    }
  }

  /**
   The count of failures has gone from `start` to `end`.  Every block without an answer takes at least two of them, so
   that with at most one failure every block got its answer.
   */
  predicate Tolerant(reliable: bool, start: nat, end: nat, good: seq<bool>): (r: bool)
    ensures r && (reliable || end <= start + 1) ==> AllGood(good)
  {
    AllGoodMisses(good);
    2 * Misses(good) <= end - start && (reliable ==> Misses(good) == 0)
  }

  lemma StillTolerant(reliable: bool, start: nat, mid: nat, end: nat, a: seq<bool>, b: seq<bool>)
    requires Tolerant(reliable, start, mid, a) && Tolerant(reliable, mid, end, b)
    ensures Tolerant(reliable, start, end, a + b)
  {
    MissesConcat(a, b);
  }

  lemma NextParent(parents: Parents, f: Frontier, child: Block, ps: seq<Block>, i: nat, from: nat, before: seq<Block>,
                   good: seq<bool>, after: seq<Block>, more: seq<bool>)
    requires WellFormed(parents) && child in parents && (forall p :: p in ps ==> p in parents[child])
    requires i < |ps| && from <= |before| && before <= after
    requires ClimbedAll(parents, f, child, ps[..i], before[from..], good)
    requires Climbed(parents, f, ps[i], after[|before|..], more)
    ensures ClimbedAll(parents, f, child, ps[..i + 1], after[from..], good + more)
  {
    OneMoreParent(parents, f, child, ps[..i], before[from..], good, ps[i], after[|before|..], more);
    assert after[from..] == before[from..] + after[|before|..] && ps[..i + 1] == ps[..i] + [ps[i]];
  }

  /** The walks from these tops, and the frontier that they leave. */
  ghost predicate WalkedBack(parents: Parents, f: Frontier, tops: seq<Block>, ws: seq<Climb>, f': Frontier)
    requires WellFormed(parents) && forall b :: b in tops ==> b in parents
  {
    ClimbsFrom(parents, f, tops, ws) && f' == FrontierOf(Kept(tops, ws))
  }

  lemma OneMoreClimb(parents: Parents, f: Frontier, tops: seq<Block>, ws: seq<Climb>, top: Block, w: Climb)
    requires WellFormed(parents) && (forall b :: b in tops ==> b in parents) && top in parents
    requires ClimbsFrom(parents, f, tops, ws) && Climbed(parents, f, top, w.pushed, w.good)
    ensures ClimbsFrom(parents, f, tops + [top], ws + [w])
  {
    forall i | 0 <= i < |ws + [w]|
      ensures ClimbAt(parents, f, tops + [top], ws + [w], i)
    {
      if i < |ws| {
        assert ClimbAt(parents, f, tops, ws, i);
        assert (ws + [w])[i] == ws[i] && (tops + [top])[i] == tops[i];
      }
    }
  }

  lemma OneMoreKept(tops: seq<Block>, ws: seq<Climb>, top: Block, w: Climb)
    requires |tops| == |ws|
    ensures var f' := FrontierOf(Kept(tops, ws));
      FrontierOf(Kept(tops + [top], ws + [w])) == if Failed(w) then f' else f'[top.shard := top.seqno]
  {
    OneMoreWalk(tops, ws, top, w);
    var kept := Kept(tops, ws);
    if Failed(w) {
      assert kept + [] == kept;
    } else {
      assert (kept + [top])[..|kept|] == kept;
    }
  }

  lemma OneMoreBack(parents: Parents, f: Frontier, tops: seq<Block>, ws: seq<Climb>, f': Frontier, top: Block, w: Climb)
    requires WellFormed(parents) && (forall b :: b in tops ==> b in parents) && top in parents
    requires WalkedBack(parents, f, tops, ws, f') && Climbed(parents, f, top, w.pushed, w.good)
    ensures WalkedBack(parents, f, tops + [top], ws + [w], if Failed(w) then f' else f'[top.shard := top.seqno])
  {
    OneMoreClimb(parents, f, tops, ws, top, w);
    OneMoreKept(tops, ws, top, w);
  }

  lemma WalksDone(parents: Parents, f: Frontier, tops: seq<Block>, ws: seq<Climb>, f': Frontier)
    requires WellFormed(parents) && (forall b :: b in tops ==> b in parents) && WalkedBack(parents, f, tops, ws, f')
    ensures InOrder(parents, f, tops, Emitted(ws), Flags(ws))
    ensures AllAnswered(ws) ==> f' == FrontierOf(tops) && Emitted(ws) == Emissions(parents, f, tops)
  {
    EmittedInOrder(parents, f, tops, tops, ws);
    if AllAnswered(ws) {
      AnsweredEmits(parents, f, tops, ws);
    }
  }

  /** The same for all lookups of several walks. */
  predicate Patient(reliable: bool, start: nat, end: nat, ws: seq<Climb>): (r: bool)
    ensures r && (reliable || end <= start + 1) ==> AllAnswered(ws)
  {
    AllAnsweredMisses(ws);
    2 * TotalMisses(ws) <= end - start && (reliable ==> TotalMisses(ws) == 0)
  }

  lemma StillPatient(reliable: bool, start: nat, mid: nat, end: nat, ws: seq<Climb>, w: Climb)
    requires Patient(reliable, start, mid, ws) && Tolerant(reliable, mid, end, w.good)
    ensures Patient(reliable, start, end, ws + [w])
  {
    assert (ws + [w])[..|ws|] == ws;
  }

  lemma EmittedMore(start: seq<Block>, before: seq<Block>, after: seq<Block>, ws: seq<Climb>, w: Climb)
    requires before == start + Emitted(ws) && after == before + if Failed(w) then [] else Reverse(w.pushed)
    ensures after == start + Emitted(ws + [w])
  {
    assert (ws + [w])[..|ws|] == ws;
    var sofar, more := Emitted(ws), if Failed(w) then [] else Reverse(w.pushed);
    assert Emitted(ws + [w]) == sofar + more;
    assert start + sofar + more == start + (sofar + more);
  }
}
