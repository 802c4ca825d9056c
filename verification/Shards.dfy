/**
 The shard blocks of a workchain.  At any time the shards form a binary tree whose leaves carry the sequence
 number of the newest block of the shard; the tree grows by a shard extending, splitting in two, or merging with
 its sibling (TON whitepaper, section 2.7).  A block is named by its shard and sequence number.
 */
module Shards {
  import opened Decimal

  /** The path from the root: false is the left half. */
  type Shard = seq<bool>

  datatype Block = Block(shard: Shard, seqno: nat)

  datatype Tree = Leaf(seqno: nat) | Fork(left: Tree, right: Tree)

  datatype Move = Extend(at: Shard) | Split(at: Shard) | Merge(at: Shard)

  function Max(a: nat, b: nat): nat {
    if a < b then b else a
  }

  /** The subtree at a path, if the path exists. */
  function Subtree(t: Tree, s: Shard): Option<Tree> {
    if s == [] then Some(t)
    else if t.Leaf? then None
    else Subtree(if s[0] then t.right else t.left, s[1..])
  }

  /** The newest block of a shard that currently exists. */
  function Top(t: Tree, s: Shard): Option<nat> {
    match Subtree(t, s)
    case Some(Leaf(n)) => Some(n)
    case _ => None
  }

  function Replace(t: Tree, s: Shard, u: Tree): Tree
    requires Subtree(t, s).Some?
  {
    if s == [] then u
    else if s[0] then Fork(t.left, Replace(t.right, s[1..], u))
    else Fork(Replace(t.left, s[1..], u), t.right)
  }

  predicate CanMove(t: Tree, m: Move) {
    match Subtree(t, m.at)
    case None => false
    case Some(Leaf(_)) => m.Extend? || m.Split?
    case Some(Fork(l, r)) => m.Merge? && l.Leaf? && r.Leaf?
  }

  /** What replaces the subtree at the place of the move. */
  function Grown(t: Tree, m: Move): Tree
    requires CanMove(t, m)
  {
    var u := Subtree(t, m.at).value;
    match m
    case Extend(_) => Leaf(u.seqno + 1)
    case Split(_) => Fork(Leaf(u.seqno + 1), Leaf(u.seqno + 1))
    case Merge(_) => Leaf(Max(u.left.seqno, u.right.seqno) + 1)
  }

  function Moved(t: Tree, m: Move): Tree
    requires CanMove(t, m)
  {
    Replace(t, m.at, Grown(t, m))
  }

  /** The blocks that a move creates. */
  function Born(t: Tree, m: Move): set<Block>
    requires CanMove(t, m)
  {
    var u := Subtree(t, m.at).value;
    match m
    case Extend(s) => {Block(s, u.seqno + 1)}
    case Split(s) => {Block(s + [false], u.seqno + 1), Block(s + [true], u.seqno + 1)}
    case Merge(s) => {Block(s, Max(u.left.seqno, u.right.seqno) + 1)}
  }

  /** Their parents, left before right. */
  function ParentsAt(t: Tree, m: Move): seq<Block>
    requires CanMove(t, m)
  {
    var u := Subtree(t, m.at).value;
    match m
    case Extend(s) => [Block(s, u.seqno)]
    case Split(s) => [Block(s, u.seqno)]
    case Merge(s) => [Block(s + [false], u.left.seqno), Block(s + [true], u.right.seqno)]
  }

  // ----- histories -----

  /** The tree after the moves so far, from one shard with the zero state. */
  function TreeOf(h: seq<Move>): Tree
    requires Valid(h)
    decreases |h|, 1
  {
    if h == [] then Leaf(0) else Moved(TreeOf(h[..|h| - 1]), h[|h| - 1])
  }

  predicate Valid(h: seq<Move>)
    decreases |h|, 0
  {
    h == [] || (Valid(h[..|h| - 1]) && CanMove(TreeOf(h[..|h| - 1]), h[|h| - 1]))
  }

  /** Every block created so far with its parents; the zero state has none. */
  function Archive(h: seq<Move>): map<Block, seq<Block>>
    requires Valid(h)
  {
    if h == [] then map[Block([], 0) := []]
    else
      var before := h[..|h| - 1];
      var m := h[|h| - 1];
      Archive(before) + map b | b in Born(TreeOf(before), m) :: ParentsAt(TreeOf(before), m)
  }

  // ----- the height of a place -----

  /**
   The sequence number of the newest block that covers the place `s`, where a place inside a shard belongs
   to that shard and a place above shards belongs to the leftmost of them.
   */
  function Height(t: Tree, s: Shard): nat {
    match t
    case Leaf(n) => n
    case Fork(l, r) => if s == [] then Height(l, []) else Height(if s[0] then r else l, s[1..])
  }

  lemma {:induction false} TopIsHeight(t: Tree, s: Shard)
    requires Top(t, s).Some?
    ensures Height(t, s) == Top(t, s).value
    decreases |s|
  {
    if s != [] {
      TopIsHeight(if s[0] then t.right else t.left, s[1..]);
    }
  }

  /** The shard that covers the place `s`. */
  function Cover(t: Tree, s: Shard): Shard {
    match t
    case Leaf(_) => []
    case Fork(l, r) =>
      if s == [] then [false] + Cover(l, []) else [s[0]] + Cover(if s[0] then r else l, s[1..])
  }

  lemma {:induction false} TopIsCover(t: Tree, s: Shard)
    ensures Top(t, s).Some? <==> Cover(t, s) == s
    ensures Top(t, Cover(t, s)) == Some(Height(t, s))
    decreases t
  {
    if t.Fork? {
      if s == [] {
        TopIsCover(t.left, []);
        assert Cover(t, s)[1..] == Cover(t.left, []);
      } else {
        var u := if s[0] then t.right else t.left;
        TopIsCover(u, s[1..]);
        assert Cover(t, s)[1..] == Cover(u, s[1..]);
        assert s == [s[0]] + s[1..];
      }
    } else {
      assert s != [] ==> Subtree(t, s).None?;
    }
  }

  /** Growing a subtree: every place in it rises above all it had, and everything else stays. */
  lemma {:induction false} MoveRises(t: Tree, m: Move, s: Shard)
    requires CanMove(t, m)
    ensures var t' := Moved(t, m);
      || (Height(t', s) == Height(t, s) && Cover(t', s) == Cover(t, s))
      || Height(t', s) > Height(t, s)
    decreases t
  {
    if m.at != [] {
      var right := m.at[0];
      var u := if right then t.right else t.left;
      var m' := match m case Extend(a) => Extend(a[1..]) case Split(a) => Split(a[1..]) case Merge(a) => Merge(a[1..]);
      if s == [] {
        if !right {
          MoveRises(u, m', []);
        }
      } else if s[0] == right {
        MoveRises(u, m', s[1..]);
      }
    }
  }

  // ----- what a move does to the tops -----

  predicate IsTop(t: Tree, b: Block) {
    Top(t, b.shard) == Some(b.seqno)
  }

  /** The tree seen below one half, and the move with it. */
  function Below(m: Move): Move
    requires m.at != []
  {
    match m
    case Extend(a) => Extend(a[1..])
    case Split(a) => Split(a[1..])
    case Merge(a) => Merge(a[1..])
  }

  lemma {:induction false} SubtreeConcat(t: Tree, s: Shard, rest: Shard)
    requires Subtree(t, s).Some?
    ensures Subtree(t, s + rest) == Subtree(Subtree(t, s).value, rest)
    decreases |s|
  {
    if s == [] {
      assert s + rest == rest;
    } else {
      assert (s + rest)[1..] == s[1..] + rest;
      SubtreeConcat(if s[0] then t.right else t.left, s[1..], rest);
    }
  }

  lemma {:induction false} SubtreeReplaced(t: Tree, s: Shard, u: Tree)
    requires Subtree(t, s).Some?
    ensures Subtree(Replace(t, s, u), s) == Some(u)
    decreases |s|
  {
    if s != [] {
      SubtreeReplaced(if s[0] then t.right else t.left, s[1..], u);
    }
  }

  /** The parents of a move are tops before it. */
  lemma ParentsAreTops(t: Tree, m: Move, p: Block)
    requires CanMove(t, m) && p in ParentsAt(t, m)
    ensures IsTop(t, p)
  {
    if m.Merge? {
      SubtreeConcat(t, m.at, [false]);
      SubtreeConcat(t, m.at, [true]);
    }
  }

  lemma BornIsTop(t: Tree, m: Move, b: Block)
    requires CanMove(t, m) && b in Born(t, m)
    ensures IsTop(Moved(t, m), b)
  {
    var t' := Moved(t, m);
    SubtreeReplaced(t, m.at, Grown(t, m));
    SubtreeConcat(t', m.at, [false]);
    SubtreeConcat(t', m.at, [true]);
  }

  /** Newborn blocks are tops after it, and their places rise to them. */
  lemma BornAreTops(t: Tree, m: Move, b: Block)
    requires CanMove(t, m) && b in Born(t, m)
    ensures IsTop(Moved(t, m), b)
    ensures Height(t, b.shard) < b.seqno == Height(Moved(t, m), b.shard)
    ensures forall p :: p in ParentsAt(t, m) ==> p.seqno < b.seqno
  {
    BornIsTop(t, m, b);
    TopIsHeight(Moved(t, m), b.shard);
    HeightAtMove(t, m);
  }

  /** Before the move, the place of each newborn block had the height of one of its parents. */
  lemma {:induction false} HeightAtMove(t: Tree, m: Move)
    requires CanMove(t, m)
    ensures forall b :: b in Born(t, m) ==> exists p :: p in ParentsAt(t, m) && Height(t, b.shard) == p.seqno
    decreases |m.at|
  {
    var u := Subtree(t, m.at).value;
    HeightConcat(t, m.at, []);
    HeightConcat(t, m.at, [false]);
    HeightConcat(t, m.at, [true]);
    assert m.at + [] == m.at;
    forall b | b in Born(t, m)
      ensures exists p :: p in ParentsAt(t, m) && Height(t, b.shard) == p.seqno
    {
      assert ParentsAt(t, m)[0].seqno == Height(t, b.shard);
    }
  }

  lemma {:induction false} HeightConcat(t: Tree, s: Shard, rest: Shard)
    requires Subtree(t, s).Some?
    ensures Height(t, s + rest) == Height(Subtree(t, s).value, rest)
    decreases |s|
  {
    if s == [] {
      assert s + rest == rest;
    } else {
      assert (s + rest)[1..] == s[1..] + rest;
      HeightConcat(if s[0] then t.right else t.left, s[1..], rest);
    }
  }

  /** A top stays a top unless the move builds on it. */
  lemma {:induction false} TopsStay(t: Tree, m: Move, b: Block)
    requires CanMove(t, m) && IsTop(t, b) && b !in ParentsAt(t, m)
    ensures IsTop(Moved(t, m), b)
    decreases t
  {
    if m.at != [] && b.shard != [] {
      var u := if m.at[0] then t.right else t.left;
      if b.shard[0] == m.at[0] {
        var m' := Below(m);
        var b' := Block(b.shard[1..], b.seqno);
        assert b.shard == [m.at[0]] + b'.shard && m.at == [m.at[0]] + m'.at;
        assert b' !in ParentsAt(u, m') by {
          ParentsBelow(t, m, b');
        }
        TopsStay(u, m', b');
      }
    } else if m.at == [] {
      RootTops(t, m, b);
    }
  }

  /** A move at the root builds on everything. */
  lemma RootTops(t: Tree, m: Move, b: Block)
    requires CanMove(t, m) && m.at == [] && IsTop(t, b)
    ensures b in ParentsAt(t, m)
  {
    if b.shard != [] {
      var u := if b.shard[0] then t.right else t.left;
      assert Subtree(t, b.shard) == Subtree(u, b.shard[1..]) && u.Leaf?;
      assert b.shard[1..] == [] && b.shard == [b.shard[0]];
      assert m.at + [b.shard[0]] == b.shard;
    }
  }

  lemma ParentsBelow(t: Tree, m: Move, b: Block)
    requires CanMove(t, m) && m.at != []
    ensures CanMove(if m.at[0] then t.right else t.left, Below(m))
    ensures b in ParentsAt(if m.at[0] then t.right else t.left, Below(m))
            ==> Block([m.at[0]] + b.shard, b.seqno) in ParentsAt(t, m)
  {
    var a := m.at[1..];
    assert m.at == [m.at[0]] + a;
    assert [m.at[0]] + (a + [false]) == m.at + [false] && [m.at[0]] + (a + [true]) == m.at + [true];
  }

  /** A top after a move is newborn or was a top before. */
  lemma {:induction false} TopIsOldOrBorn(t: Tree, m: Move, b: Block)
    requires CanMove(t, m) && IsTop(Moved(t, m), b)
    ensures b in Born(t, m) || IsTop(t, b)
    decreases t
  {
    if m.at == [] {
      RootBorn(t, m, b);
    } else if b.shard != [] && b.shard[0] == m.at[0] {
      var u := if m.at[0] then t.right else t.left;
      var b' := Block(b.shard[1..], b.seqno);
      assert b.shard == [m.at[0]] + b'.shard;
      BornBelow(t, m, b');
      TopIsOldOrBorn(u, Below(m), b');
    }
  }

  lemma RootBorn(t: Tree, m: Move, b: Block)
    requires CanMove(t, m) && m.at == [] && IsTop(Moved(t, m), b)
    ensures b in Born(t, m)
  {
    var g := Grown(t, m);
    if b.shard != [] {
      var u := if b.shard[0] then g.right else g.left;
      assert Subtree(g, b.shard) == Subtree(u, b.shard[1..]) && u.Leaf?;
      assert b.shard[1..] == [] && b.shard == [b.shard[0]];
      assert m.at + [b.shard[0]] == b.shard;
    }
  }

  lemma BornBelow(t: Tree, m: Move, b: Block)
    requires CanMove(t, m) && m.at != []
    ensures CanMove(if m.at[0] then t.right else t.left, Below(m))
    ensures b in Born(if m.at[0] then t.right else t.left, Below(m))
            ==> Block([m.at[0]] + b.shard, b.seqno) in Born(t, m)
  {
    var a := m.at[1..];
    assert m.at == [m.at[0]] + a;
    assert [m.at[0]] + (a + [false]) == m.at + [false] && [m.at[0]] + (a + [true]) == m.at + [true];
  }

  // ----- histories: heights only rise, blocks are never created twice -----

  lemma {:induction false} HistoryRises(h: seq<Move>, i: nat, s: Shard)
    requires Valid(h) && i <= |h|
    ensures Valid(h[..i])
    ensures var t, t' := TreeOf(h[..i]), TreeOf(h);
      || (Height(t', s) == Height(t, s) && Cover(t', s) == Cover(t, s))
      || Height(t', s) > Height(t, s)
    decreases |h|
  {
    if i == |h| {
      assert h[..i] == h;
    } else {
      var before := h[..|h| - 1];
      assert before[..i] == h[..i];
      HistoryRises(before, i, s);
      MoveRises(TreeOf(before), h[|h| - 1], s);
    }
  }

  /** The places of archived blocks have risen to them. */
  lemma {:induction false} ArchivedIsRisen(h: seq<Move>, b: Block)
    requires Valid(h) && b in Archive(h)
    ensures b.seqno <= Height(TreeOf(h), b.shard)
    decreases |h|
  {
    if h != [] {
      var before := h[..|h| - 1];
      var m := h[|h| - 1];
      if b in Born(TreeOf(before), m) {
        BornAreTops(TreeOf(before), m, b);
      } else {
        ArchivedIsRisen(before, b);
        MoveRises(TreeOf(before), m, b.shard);
      }
    }
  }

  /** A newborn block is not in the archive before its move. */
  lemma NotYetBorn(h: seq<Move>, b: Block)
    requires Valid(h) && h != [] && b in Born(TreeOf(h[..|h| - 1]), h[|h| - 1])
    ensures b !in Archive(h[..|h| - 1])
  {
    var before := h[..|h| - 1];
    BornAreTops(TreeOf(before), h[|h| - 1], b);
    if b in Archive(before) {
      ArchivedIsRisen(before, b);
    }
  }

  /**
   A block of the archive is in the archive at an earlier time exactly if its place had risen to it by then,
   and then with the same parents.
   */
  lemma {:induction false} CreatedIffRisen(h: seq<Move>, i: nat, b: Block)
    requires Valid(h) && i <= |h| && b in Archive(h)
    ensures Valid(h[..i])
    ensures b in Archive(h[..i]) <==> b.seqno <= Height(TreeOf(h[..i]), b.shard)
    ensures b in Archive(h[..i]) ==> Archive(h[..i])[b] == Archive(h)[b]
    decreases |h|
  {
    if i == |h| {
      assert h[..i] == h;
      ArchivedIsRisen(h, b);
    } else {
      var before := h[..|h| - 1];
      assert before[..i] == h[..i];
      HistoryRises(before, i, b.shard);
      if b in Born(TreeOf(before), h[|h| - 1]) {
        BornAreTops(TreeOf(before), h[|h| - 1], b);
        NotYetBorn(h, b);
        if b in Archive(h[..i]) {
          ArchiveGrows(before, i, b);
        }
      } else {
        CreatedIffRisen(before, i, b);
      }
    }
  }

  lemma {:induction false} ArchiveGrows(h: seq<Move>, i: nat, b: Block)
    requires Valid(h) && i <= |h| && Valid(h[..i]) && b in Archive(h[..i])
    ensures b in Archive(h)
    decreases |h|
  {
    if i == |h| {
      assert h[..i] == h;
    } else {
      assert h[..|h| - 1][..i] == h[..i];
      ArchiveGrows(h[..|h| - 1], i, b);
    }
  }
}
