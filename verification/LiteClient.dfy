/** Reading the transactions of a block page by page, and looking for an outgoing payment of an account. */
module LiteClient {
  import opened Decimal
  import opened Deals

  datatype Tx = Tx(account: int, lt: nat)

  /** How the server answers one request: a page of some size, or one of two kinds of error. */
  datatype Answer = Serve(size: nat) | NotReady | Fail

  datatype Reply = Page(txs: seq<Tx>, more: bool) | NotReadyError | OtherError

  const PAGE_LIMIT: nat := 256
  const ATTEMPTS_LIMIT: nat := 5

  predicate Distinct(txs: seq<Tx>) {
    forall i, j :: 0 <= i < j < |txs| ==> txs[i] != txs[j]
  }

  /** A page is at least one transaction, as long as one is left, and at most the limit. */
  function PageSize(wanted: nat, left: nat): (n: nat)
    ensures n <= left && n <= PAGE_LIMIT && (left > 0 ==> n > 0)
  {
    var n := if wanted < 1 then 1 else if wanted < PAGE_LIMIT then wanted else PAGE_LIMIT;
    if n < left then n else if left < PAGE_LIMIT then left else PAGE_LIMIT
  }

  /** Whether the client gives up on a server that has `left` transactions to send: five counted errors for one page. */
  predicate GivesUp(script: seq<Answer>, left: nat, attempts: nat)
    decreases |script|
  {
    if script == [] then false
    else match script[0]
      case NotReady => GivesUp(script[1..], left, attempts)
      case Fail => attempts + 1 == ATTEMPTS_LIMIT || GivesUp(script[1..], left, attempts + 1)
      case Serve(size) => left > PageSize(size, left) && GivesUp(script[1..], left - PageSize(size, left), 0)
  }

  function Failures(script: seq<Answer>): nat {
    if script == [] then 0 else (if script[0].Fail? then 1 else 0) + Failures(script[1..])
  }

  /** Fewer than five errors never make it give up, however many times a block is not ready. */
  lemma {:induction false} FewFailures(script: seq<Answer>, left: nat, attempts: nat)
    requires attempts + Failures(script) < 5
    ensures !GivesUp(script, left, attempts)
    decreases |script|
  {
    if script != [] {
      match script[0]
      case NotReady => FewFailures(script[1..], left, attempts);
      case Fail => FewFailures(script[1..], left, attempts + 1);
      case Serve(size) => FewFailures(script[1..], left - PageSize(size, left), 0);
    }
  }

  predicate NoPage(script: seq<Answer>) {
    forall i :: 0 <= i < |script| ==> !script[i].Serve?
  }

  /** After these answers the client still asks: none of the pages was the last one. */
  predicate StillAsking(script: seq<Answer>, left: nat) {
    if script == [] then true
    else match script[0]
      case Serve(size) => left > PageSize(size, left) && StillAsking(script[1..], left - PageSize(size, left))
      case _ => StillAsking(script[1..], left)
  }

  /** From answer `i` to `j`, while it still asks, there is no page, and with those counted before, five errors. */
  predicate FiveErrors(script: seq<Answer>, left: nat, counted: nat, i: nat, j: nat)
    requires i <= j <= |script|
  {
    && StillAsking(script[..i], left) && NoPage(script[i..j])
    && Failures(script[i..j]) + (if i == 0 then counted else 0) >= 5
  }

  predicate Hopeless(script: seq<Answer>, left: nat, counted: nat) {
    exists i, j :: 0 <= i <= j <= |script| && FiveErrors(script, left, counted, i, j)
  }

  /** The same answers, one step later. */
  lemma Later(script: seq<Answer>, left: nat, counted: nat, i: nat, j: nat)
    requires script != [] && i <= j < |script| && counted < 5
    requires GoesOn(script[0], left)
    ensures FiveErrors(script[1..], LeftAfter(script[0], left), CountedAfter(script[0], counted), i, j)
      <==> if i > 0 || script[0].Serve? then FiveErrors(script, left, counted, i + 1, j + 1)
           else FiveErrors(script, left, counted, 0, j + 1)
  {
    var rest := script[1..];
    assert rest[i..j] == script[i + 1..j + 1];
    assert script[..i + 1][0] == script[0] && script[..i + 1][1..] == rest[..i];
    if i == 0 {
      assert script[..j + 1] == [script[0]] + rest[..j];
      NoPageCons(script[0], rest[..j]);
    }
  }

  lemma NoPageCons(a: Answer, rest: seq<Answer>)
    ensures NoPage([a] + rest) <==> !a.Serve? && NoPage(rest)
    ensures Failures([a] + rest) == (if a.Fail? then 1 else 0) + Failures(rest)
  {
    var all := [a] + rest;
    assert all[1..] == rest;
    if !a.Serve? && NoPage(rest) {
      forall k | 0 <= k < |all|
        ensures !all[k].Serve?
      {
        assert k > 0 ==> all[k] == rest[k - 1];
      }
    }
    if NoPage(all) {
      forall k | 0 <= k < |rest|
        ensures !rest[k].Serve?
      {
        assert rest[k] == all[k + 1];
      }
      assert !all[0].Serve?;
    }
  }

  /** Counting may as well begin with an error or a "not ready" before it. */
  lemma Sooner(script: seq<Answer>, left: nat, counted: nat, j: nat)
    requires script != [] && !script[0].Serve? && 1 <= j <= |script| && FiveErrors(script, left, counted, 1, j)
    ensures FiveErrors(script, left, counted, 0, j)
  {
    assert script[0..j] == [script[0]] + script[1..j];
    NoPageCons(script[0], script[1..j]);
  }

  /**
   The client gives up exactly if, while it is still asking, there are five errors without a page in between: errors
   on different pages do not add up.
   */
  lemma {:induction false} GivesUpIff(script: seq<Answer>, left: nat, counted: nat)
    requires counted < 5
    ensures GivesUp(script, left, counted) <==> Hopeless(script, left, counted)
    decreases |script|
  {
    if script == [] {
      assert forall i, j :: 0 <= i <= j <= |script| ==> !FiveErrors(script, left, counted, i, j);
    } else {
      if CountedAfter(script[0], counted) == 5 {
        NoPageCons(script[0], []);
        assert script[0..1] == [script[0]] + [];
        assert FiveErrors(script, left, counted, 0, 1);
      } else {
        GivesUpIff(script[1..], LeftAfter(script[0], left), CountedAfter(script[0], counted));
        HopelessLater(script, left, counted);
      }
    }
  }

  function LeftAfter(a: Answer, left: nat): nat {
    if a.Serve? then left - PageSize(a.size, left) else left
  }

  function CountedAfter(a: Answer, counted: nat): nat {
    if a.Serve? then 0 else if a.Fail? then counted + 1 else counted
  }

  predicate GoesOn(a: Answer, left: nat) {
    a.Serve? ==> left > PageSize(a.size, left)
  }

  lemma HopelessLater(script: seq<Answer>, left: nat, counted: nat)
    requires script != [] && counted < 5
    ensures Hopeless(script, left, counted)
            <==> GoesOn(script[0], left)
                 && Hopeless(script[1..], LeftAfter(script[0], left), CountedAfter(script[0], counted))
  {
    if i, j :| 0 <= i <= j <= |script| && FiveErrors(script, left, counted, i, j) {
      OneStepLater(script, left, counted, i, j);
    }
    var left', counted' := LeftAfter(script[0], left), CountedAfter(script[0], counted);
    if GoesOn(script[0], left) {
      if i, j :| 0 <= i <= j <= |script[1..]| && FiveErrors(script[1..], left', counted', i, j) {
        Later(script, left, counted, i, j);
      }
    }
  }

  lemma OneStepLater(script: seq<Answer>, left: nat, counted: nat, i: nat, j: nat)
    requires script != [] && counted < 5 && i <= j <= |script| && FiveErrors(script, left, counted, i, j)
    ensures GoesOn(script[0], left)
            && Hopeless(script[1..], LeftAfter(script[0], left), CountedAfter(script[0], counted))
  {
    MovesOn(script, left, counted, i, j);
    var i' := if i > 0 then i - 1 else 0;
    if i == 1 && !script[0].Serve? {
      Sooner(script, left, counted, j);
    }
    Later(script, left, counted, i', j - 1);
    assert FiveErrors(script[1..], LeftAfter(script[0], left), CountedAfter(script[0], counted), i', j - 1);
  }

  /** Five errors take more than the first answer, and they are over if it was the last page. */
  lemma MovesOn(script: seq<Answer>, left: nat, counted: nat, i: nat, j: nat)
    requires script != [] && counted < 5 && i <= j <= |script| && FiveErrors(script, left, counted, i, j)
    ensures j >= 1 && (script[0].Serve? ==> i >= 1 && left > PageSize(script[0].size, left))
  {
    if i == 0 && j > 0 {
      assert script[0..j] == [script[0]] + script[1..j];
      NoPageCons(script[0], script[1..j]);
    } else if i > 0 {
      assert script[..i][0] == script[0];
    }
  }

  /** A server with the transactions of one block, which keeps no state between requests but its script of answers. */
  class Liteserver {
    const txs: seq<Tx>
    var script: seq<Answer>

    constructor (txs: seq<Tx>, script: seq<Answer>)
      ensures this.txs == txs && this.script == script
    {
      this.txs, this.script := txs, script;
    }

    /** The page after the given transaction; when the script is used up, every request is served. */
    method GetBlockTransactions(after: Option<Tx>, ghost from: nat) returns (r: Reply)
      requires Distinct(txs)
      requires from <= |txs| && after == if from == 0 then None else Some(txs[from - 1])
      modifies this
      ensures script == Rest(old(script))
      ensures match NextAnswer(old(script))
        case NotReady => r == NotReadyError
        case Fail => r == OtherError
        case Serve(size) =>
          var n := PageSize(size, |txs| - from);
          r == Page(txs[from..from + n], from + n < |txs|)
    {
      var answer := if script == [] then Serve(PAGE_LIMIT) else script[0];
      script := if script == [] then [] else script[1..];
      match answer
      case NotReady => r := NotReadyError;
      case Fail => r := OtherError;
      case Serve(size) =>
        var start := 0;
        if after.Some? {
          while start < |txs| && txs[start] != after.value
            invariant start < from
          {
            start := start + 1;
          }
          start := start + 1;
        }
        var n := PageSize(size, |txs| - start);
        r := Page(txs[start..start + n], start + n < |txs|);
    }
  }

  // ----- sorting by logical time -----

  predicate Sorted(txs: seq<Tx>) {
    forall i, j :: 0 <= i < j < |txs| ==> txs[i].lt <= txs[j].lt
  }

  function Insert(t: Tx, s: seq<Tx>): seq<Tx> {
    if s == [] || t.lt <= s[0].lt then [t] + s else [s[0]] + Insert(t, s[1..])
  }

  function Sort(s: seq<Tx>): seq<Tx> {
    if s == [] then [] else Insert(s[0], Sort(s[1..]))
  }

  lemma {:induction false} InsertKeeps(t: Tx, s: seq<Tx>)
    ensures multiset(Insert(t, s)) == multiset{t} + multiset(s)
  {
    if s != [] && t.lt > s[0].lt {
      InsertKeeps(t, s[1..]);
      assert s == [s[0]] + s[1..];
    }
  }

  lemma {:induction false} InsertSorts(t: Tx, s: seq<Tx>)
    requires Sorted(s)
    ensures Sorted(Insert(t, s))
  {
    if s != [] && t.lt > s[0].lt {
      InsertSorts(t, s[1..]);
      var rest := Insert(t, s[1..]);
      forall i | 0 <= i < |rest|
        ensures s[0].lt <= rest[i].lt
      {
        InsertKeeps(t, s[1..]);
        assert rest[i] in multiset(rest);
        assert rest[i] == t || rest[i] in s[1..];
      }
    }
  }

  lemma {:induction false} SortSorts(s: seq<Tx>)
    ensures Sorted(Sort(s)) && multiset(Sort(s)) == multiset(s)
  {
    if s != [] {
      SortSorts(s[1..]);
      InsertSorts(s[0], Sort(s[1..]));
      InsertKeeps(s[0], Sort(s[1..]));
      assert s == [s[0]] + s[1..];
    }
  }

  // ----- the client -----

  /**
   All transactions of the block, each exactly once, sorted by logical time, whatever the sizes of the pages;
   or nothing, exactly if the server fails five times on one page, not counting "not ready".
   */
  method GetTransactionIDsFromBlock(server: Liteserver) returns (r: Result<seq<Tx>, ()>)
    requires Distinct(server.txs)
    modifies server
    ensures r.Err? <==> Hopeless(old(server.script), |server.txs|, 0)
    ensures r.Ok? ==> Sorted(r.value) && multiset(r.value) == multiset(server.txs)
  {
    GivesUpIff(server.script, |server.txs|, 0);
    r := FetchPages(server);
    if r.Ok? {
      SortSorts(r.value);
      r := Ok(Sort(r.value));
    }
  }

  function NextAnswer(script: seq<Answer>): Answer {
    if script == [] then Serve(PAGE_LIMIT) else script[0]
  }

  function Rest(script: seq<Answer>): seq<Answer> {
    if script == [] then [] else script[1..]
  }

  lemma GivesUpNext(script: seq<Answer>, left: nat, attempts: nat)
    ensures GivesUp(script, left, attempts) <==>
      match NextAnswer(script)
      case NotReady => GivesUp(Rest(script), left, attempts)
      case Fail => attempts + 1 == ATTEMPTS_LIMIT || GivesUp(Rest(script), left, attempts + 1)
      case Serve(size) => left > PageSize(size, left) && GivesUp(Rest(script), left - PageSize(size, left), 0)
  {
  }

  lemma PageAdds(all: seq<Tx>, from: nat, size: nat, fetched: seq<Tx>, more: bool)
    requires from <= |all|
    requires var n := PageSize(size, |all| - from); fetched == all[from..from + n] && more == (from + n < |all|)
    ensures var n := PageSize(size, |all| - from);
      && |fetched| == n && all[..from] + fetched == all[..from + n]
      && (if more then n > 0 && fetched[n - 1] == all[from + n - 1] else all[..from] + fetched == all)
  {
  }

  /** The loop over the pages. */
  method FetchPages(server: Liteserver) returns (r: Result<seq<Tx>, ()>)
    requires Distinct(server.txs)
    modifies server
    ensures r == if GivesUp(old(server.script), |server.txs|, 0) then Err(()) else Ok(server.txs)
  {
    ghost var from: nat := 0;
    ghost var all, hopeless := server.txs, GivesUp(server.script, |server.txs|, 0);
    var list: seq<Tx> := [];
    var after: Option<Tx> := None;
    var next := true;
    var attempts := 0;
    while next
      invariant server.txs == all && from <= |all| && list == all[..from] && attempts < ATTEMPTS_LIMIT
      invariant next ==> after == if from == 0 then None else Some(all[from - 1])
      invariant if next then hopeless <==> GivesUp(server.script, |all| - from, attempts) else !hopeless && list == all
      decreases next, |server.script|, |all| - from
    {
      ghost var before := server.script;
      var reply := server.GetBlockTransactions(after, from);
      GivesUpNext(before, |all| - from, attempts);
      match reply
      case NotReadyError =>
      case OtherError =>
        attempts := attempts + 1;
        if attempts == ATTEMPTS_LIMIT {
          return Err(());
        }
      case Page(fetched, more) =>
        PageAdds(all, from, NextAnswer(before).size, fetched, more);
        from := from + |fetched|;
        list := list + fetched;
        next := more;
        if more {
          after := Some(fetched[|fetched| - 1]);
        }
        attempts := 0;
    }
    r := Ok(list);
  }

  // ----- looking for a payment -----

  datatype Message = Message(destination: string, amount: int)

  /** `out`: the outgoing internal messages of a transaction, if there are any and they can be read. */
  datatype AccountTx = AccountTx(out: Option<seq<Message>>)

  const WINDOW: nat := 20

  predicate Sends(tx: AccountTx, amount: int, to: string) {
    tx.out.Some? && exists k :: 0 <= k < |tx.out.value| && tx.out.value[k] == Message(to, amount)
  }

  /** The newest transactions of an account, newest first. */
  function Newest(history: seq<AccountTx>): (txs: seq<AccountTx>)
    ensures |txs| == if |history| < WINDOW then |history| else WINDOW
    ensures forall i :: 0 <= i < |txs| ==> txs[i] == history[|history| - 1 - i]
  {
    var n := if |history| < WINDOW then |history| else WINDOW;
    seq(n, i requires 0 <= i < n => history[|history| - 1 - i])
  }

  method HasOutgoingTxTo(history: seq<AccountTx>, amount: int, to: string) returns (found: bool)
    ensures found <==> SentRecently(history, amount, to)
    ensures found <==>
      exists i, k :: 0 <= i < |history| && |history| - i <= 20 && history[i].out.Some?
                     && 0 <= k < |history[i].out.value| && history[i].out.value[k] == Message(to, amount)
  {
    var txs := Newest(history);
    for i := 0 to |txs|
      invariant forall j :: 0 <= j < i ==> !Sends(txs[j], amount, to)
    {
      if txs[i].out.None? {
        continue;
      }
      var msgs := txs[i].out.value;
      for k := 0 to |msgs|
        invariant forall l :: 0 <= l < k ==> msgs[l] != Message(to, amount)
      {
        if msgs[k].destination != to {
          continue;
        }
        if msgs[k].amount == amount {
          assert Sends(txs[i], amount, to);
          assert txs[i] == history[|history| - 1 - i];
          return true;
        }
      }
    }
    forall i | 0 <= i < |history| && |history| - i <= WINDOW
      ensures !Sends(history[i], amount, to)
    {
      assert txs[|history| - 1 - i] == history[i];
    }
    found := false;
  }

  predicate EverSent(history: seq<AccountTx>, amount: int, to: string) {
    exists i :: 0 <= i < |history| && Sends(history[i], amount, to)
  }

  predicate SentRecently(history: seq<AccountTx>, amount: int, to: string) {
    exists i :: 0 <= i < |history| && |history| - i <= 20 && Sends(history[i], amount, to)
  }

  /**
   The lookup sees a payment exactly as long as no more than 19 transactions of the wallet have followed it; after
   20 more, incoming transfers included, a payment that was made is not found any more.
   */
  lemma LookupExactness(before: seq<AccountTx>, tx: AccountTx, later: seq<AccountTx>, amount: int, to: string)
    requires Sends(tx, amount, to)
    requires forall i :: 0 <= i < |before| ==> !Sends(before[i], amount, to)
    requires forall i :: 0 <= i < |later| ==> !Sends(later[i], amount, to)
    ensures EverSent(before + [tx] + later, amount, to)
    ensures SentRecently(before + [tx] + later, amount, to) <==> |later| < 20
  {
    var h := before + [tx] + later;
    assert h[|before|] == tx;
    forall i | 0 <= i < |h| && i != |before|
      ensures !Sends(h[i], amount, to)
    {
      assert h[i] == if i < |before| then before[i] else later[i - |before| - 1];
    }
  }
}
