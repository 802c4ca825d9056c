/** Deposit events: what a sequence of them does to the deals, whatever their order, repetition and batches. */
module Deposits {
  import opened Decimal
  import opened DoOnce
  import opened Deals
  import opened DealLife
  import opened DealPayouts
  import opened Tables
  import Market

  datatype Event = Event(id: int, address: Wallet, amount: int)

  predicate Awaits(c: Cell, address: Wallet) {
    c.deal.status == WaitingEscrowDeposit && c.deal.escrowAddress == Some(address)
  }

  /** The lookup by address answers only if exactly one waiting deal has it. */
  ghost predicate Matches(rows: Rows, id: int, address: Wallet) {
    && id in rows && Awaits(rows[id], address)
    && forall other :: other in rows && Awaits(rows[other], address) ==> other == id
  }

  ghost function Seen(rows: Rows, e: Event): Rows {
    map id | id in rows ::
      if Matches(rows, id, e.address) then rows[id].(deal := DepositSeen(rows[id].deal, e.amount)) else rows[id]
  }

  ghost function SeenAll(rows: Rows, events: seq<Event>): Rows
    decreases |events|
  {
    if events == [] then rows else Seen(SeenAll(rows, events[..|events| - 1]), events[|events| - 1])
  }

  /** How one event fares: handled, dropped because the lookup failed, or kept because the write failed. */
  datatype Handling = Handled | LookupFailed | WriteFailed

  /** The events that were handled. */
  function Effective(events: seq<Event>, hs: seq<Handling>): seq<Event>
    requires |events| == |hs|
    decreases |events|
  {
    if events == [] then []
    else
      var n := |events| - 1;
      Effective(events[..n], hs[..n]) + if hs[n].Handled? then [events[n]] else []
  }

  /** The ids of the events that are acknowledged: all but those whose write failed. */
  function Acked(events: seq<Event>, hs: seq<Handling>): seq<int>
    requires |events| == |hs|
    decreases |events|
  {
    if events == [] then []
    else
      var n := |events| - 1;
      Acked(events[..n], hs[..n]) + if hs[n].WriteFailed? then [] else [events[n].id]
  }

  function Ids(events: seq<Event>): seq<int> {
    seq(|events|, i requires 0 <= i < |events| => events[i].id)
  }

  /** At most the events of the batch are handled, and if none is missing it is exactly these. */
  lemma {:induction false} AllHandled(events: seq<Event>, hs: seq<Handling>)
    requires |events| == |hs|
    ensures |Effective(events, hs)| <= |events|
    ensures |Effective(events, hs)| == |events| ==>
      && Effective(events, hs) == events
      && Acked(events, hs) == Ids(events)
    decreases |events|
  {
    if events != [] {
      var n := |events| - 1;
      AllHandled(events[..n], hs[..n]);
      assert events[..n] + [events[n]] == events;
    }
  }

  /** What a batch has come to, with this many failed calls: as many events were not handled. */
  ghost predicate Batched(before: Rows, after: Rows, events: seq<Event>, hs: seq<Handling>, acked: seq<int>,
                          failures: int)
  {
    && |hs| == |events|
    && after == SeenAll(before, Effective(events, hs)) && acked == Acked(events, hs)
    && |Effective(events, hs)| + failures == |events|
  }

  lemma OneMore(start: Rows, before: Rows, after: Rows, events: seq<Event>, hs: seq<Handling>, acked: seq<int>,
                failures: int, e: Event, h: Handling)
    requires Batched(start, before, events, hs, acked, failures)
    requires after == if h.Handled? then Seen(before, e) else before
    ensures Batched(start, after, events + [e], hs + [h], acked + if h.WriteFailed? then [] else [e.id],
                    failures + if h.Handled? then 0 else 1)
  {
    assert (events + [e])[..|events|] == events && (hs + [h])[..|hs|] == hs;
    var done := Effective(events, hs);
    if h.Handled? {
      assert Effective(events + [e], hs + [h]) == done + [e] && (done + [e])[..|done|] == done;
    } else {
      assert Effective(events + [e], hs + [h]) == done + [] == done;
    }
  }

  /** No two deals wait at the same address. */
  ghost predicate DistinctEscrows(rows: Rows) {
    forall i, j, a :: i in rows && j in rows && Awaits(rows[i], a) && Awaits(rows[j], a) ==> i == j
  }

  /** So it is in every market that can come about without a seed being generated twice. */
  lemma EscrowsAreDistinct(cfg: Config, run: seq<Market.Input>)
    requires Market.SeedReused !in Market.RunFaults(cfg, Market.Empty(), run)
    ensures DistinctEscrows(Market.Run(cfg, Market.Empty(), run).cells)
  {
    Market.SeedsRun(cfg, Market.Empty(), run);
    var m := Market.Run(cfg, Market.Empty(), run);
    forall i, j, a | i in m.cells && j in m.cells && Awaits(m.cells[i], a) && Awaits(m.cells[j], a)
      ensures i == j
    {
      assert Market.OwnsSeeds(m, i) && Market.OwnsSeeds(m, j);
    }
  }

  /** One of the events pays the whole deposit of the deal. */
  predicate Pays(c: Cell, e: Event) {
    Awaits(c, e.address) && e.amount >= c.deal.escrowAmount
  }

  predicate PaidBy(c: Cell, events: seq<Event>) {
    exists i :: 0 <= i < |events| && Pays(c, events[i])
  }

  /** The deal after its deposit: confirmed if some single event was enough, and untouched if none was. */
  function Settled(c: Cell, events: seq<Event>): Cell {
    if PaidBy(c, events) then c.(deal := c.deal.(status := EscrowDepositConfirmed)) else c
  }

  /** A deposit is a step of the deal, so it keeps the deal safe. */
  lemma DepositKeepsSafe(cfg: Config, now: int, c: Cell, amount: int)
    requires SafeInv(cfg, now, c)
    ensures SafeInv(cfg, now, c.(deal := DepositSeen(c.deal, amount)))
  {
    assert EscrowStep(c, Deposit(amount)) == c.(deal := DepositSeen(c.deal, amount));
    SafeStep(cfg, now, c, OnEscrow(Deposit(amount)));
  }

  lemma SeenKeepsSafe(cfg: Config, now: int, rows: Rows, e: Event)
    requires AllAtRest(rows)
    ensures AllAtRest(Seen(rows, e)) && (AllSafe(cfg, now, rows) ==> AllSafe(cfg, now, Seen(rows, e)))
  {
    if AllSafe(cfg, now, rows) {
      forall id | id in rows
        ensures SafeInv(cfg, now, Seen(rows, e)[id])
      {
        DepositKeepsSafe(cfg, now, rows[id], e.amount);
      }
    }
  }

  lemma {:induction false} SeenAllKeepsSafe(cfg: Config, now: int, rows: Rows, events: seq<Event>)
    requires AllAtRest(rows)
    ensures AllAtRest(SeenAll(rows, events)) && (AllSafe(cfg, now, rows) ==> AllSafe(cfg, now, SeenAll(rows, events)))
    decreases |events|
  {
    if events != [] {
      SeenAllKeepsSafe(cfg, now, rows, events[..|events| - 1]);
      SeenKeepsSafe(cfg, now, SeenAll(rows, events[..|events| - 1]), events[|events| - 1]);
    }
  }

  lemma SettledMore(c: Cell, events: seq<Event>)
    requires events != []
    ensures var init, e := events[..|events| - 1], events[|events| - 1];
      PaidBy(c, events) <==> PaidBy(c, init) || Pays(c, e)
  {
    var init := events[..|events| - 1];
    if i :| 0 <= i < |init| && Pays(c, init[i]) {
      assert Pays(c, events[i]);
    }
    if i :| 0 <= i < |events| && Pays(c, events[i]) && i < |init| {
      assert Pays(c, init[i]);
    }
  }

  /**
   With distinct escrow addresses, after any sequence of deposit events each deal is confirmed if and only if it was
   waiting and some single event for its address carries at least its escrow amount; nothing else changes.
   */
  lemma {:induction false} ConfirmedIffPaid(rows: Rows, events: seq<Event>)
    requires DistinctEscrows(rows)
    ensures SeenAll(rows, events) == map id | id in rows :: Settled(rows[id], events)
    decreases |events|
  {
    if events != [] {
      var init, e := events[..|events| - 1], events[|events| - 1];
      ConfirmedIffPaid(rows, init);
      var before := SeenAll(rows, init);
      forall id | id in rows
        ensures Seen(before, e)[id] == Settled(rows[id], events)
      {
        SettledMore(rows[id], events);
        assert before[id] == Settled(rows[id], init);
        if Awaits(before[id], e.address) {
          assert Awaits(rows[id], e.address);
          assert forall other :: other in before && Awaits(before[other], e.address) ==> Awaits(rows[other], e.address);
          assert Matches(before, id, e.address);
        }
      }
    }
  }

  /** Batches make no difference. */
  lemma {:induction false} Batches(rows: Rows, a: seq<Event>, b: seq<Event>)
    ensures SeenAll(rows, a + b) == SeenAll(SeenAll(rows, a), b)
    decreases |b|
  {
    if b == [] {
      assert a + b == a;
    } else {
      assert (a + b)[..|a + b| - 1] == a + b[..|b| - 1];
      Batches(rows, a, b[..|b| - 1]);
    }
  }

  /** Neither do order and repetition: sequences with the same events have the same effect. */
  lemma OrderAndRepetition(rows: Rows, a: seq<Event>, b: seq<Event>)
    requires DistinctEscrows(rows)
    requires forall e :: e in a <==> e in b
    ensures SeenAll(rows, a) == SeenAll(rows, b)
  {
    ConfirmedIffPaid(rows, a);
    ConfirmedIffPaid(rows, b);
    forall id | id in rows
      ensures PaidBy(rows[id], a) <==> PaidBy(rows[id], b)
    {
      SameEventsPay(rows[id], a, b);
      SameEventsPay(rows[id], b, a);
    }
  }

  lemma SameEventsPay(c: Cell, a: seq<Event>, b: seq<Event>)
    requires forall e :: e in a <==> e in b
    ensures PaidBy(c, a) ==> PaidBy(c, b)
  {
    if i :| 0 <= i < |a| && Pays(c, a[i]) {
      assert a[i] in b;
      var j :| 0 <= j < |b| && b[j] == a[i];
      assert Pays(c, b[j]);
    }
  }
}
