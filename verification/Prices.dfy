/**
 The price list of a listing: validated and converted to nanoton when it is stored, converted back to TON when it is
 shown, and compared with what is submitted in a deal.
 */
module Prices {
  import opened Decimal
  import opened Deals
  import Float
  import Money

  /** A JSON value after decoding; a number is the double that its text is decoded to. */
  datatype Json = Text(text: string) | Number(x: real) | Other | Array(items: seq<Json>)

  /** The stored or submitted JSON: nothing, something that is not an array, or an array. */
  datatype Raw = Empty | NotArray | Slots(slots: seq<Json>)

  datatype PricesError = NotAnArray | NotAPair(i: nat) | BadDuration(i: nat) | BadPrice(i: nat)

  // ----- amounts -----

  function TONToNanoton(ton: real): int {
    Money.RoundAway(Float.Round(ton * 1_000_000_000.0))
  }

  function NanotonToTON(nanoton: int): real {
    Float.Round(Float.Round(nanoton as real) / 1_000_000_000.0)
  }

  /** Conversion of a double to an integer drops the fraction. */
  function Truncate(x: real): int {
    if x >= 0.0 then x.Floor else -((-x).Floor)
  }

  /** 2^22 TON: below, doubles are fine enough for every nanoton. */
  const FINE: int := 4_194_304_000_000_000

  lemma ScaledFour(x: real, k: nat)
    requires k >= 4
    ensures Float.Scaled(x, k) == Float.Scaled(16.0 * x, k - 4)
  {
    assert Float.Scaled(x, k) == Float.Scaled(2.0 * x, k - 1);
    assert Float.Scaled(2.0 * x, k - 1) == Float.Scaled(4.0 * x, k - 2);
    assert Float.Scaled(4.0 * x, k - 2) == Float.Scaled(8.0 * x, k - 3);
    assert Float.Scaled(8.0 * x, k - 3) == Float.Scaled(16.0 * x, k - 4);
  }

  lemma Scaled28(x: real, k: nat)
    requires k >= 28
    ensures Float.Scaled(x, k) == Float.Scaled(268_435_456.0 * x, k - 28)
  {
    ScaledFour(x, k);
    ScaledFour(16.0 * x, k - 4);
    ScaledFour(256.0 * x, k - 8);
    ScaledFour(4_096.0 * x, k - 12);
    ScaledFour(65_536.0 * x, k - 16);
    ScaledFour(1_048_576.0 * x, k - 20);
    ScaledFour(16_777_216.0 * x, k - 24);
  }

  lemma Scaled31(x: real)
    ensures Float.Scaled(x, 31) == 2_147_483_648.0 * x
  {
    Scaled28(x, 31);
    var y := 268_435_456.0 * x;
    assert Float.Scaled(y, 3) == Float.Scaled(2.0 * y, 2);
    assert Float.Scaled(2.0 * y, 2) == Float.Scaled(4.0 * y, 1);
    Float.ScaledOnce(4.0 * y);
  }

  lemma Scaled30(x: real)
    ensures Float.Scaled(x, 30) == 1_073_741_824.0 * x
  {
    Scaled28(x, 30);
    var y := 268_435_456.0 * x;
    assert Float.Scaled(y, 2) == Float.Scaled(2.0 * y, 1);
    Float.ScaledOnce(2.0 * y);
  }

  /** A price below 2^22 TON survives being shown in TON and submitted again, to the nanoton. */
  lemma ShownPriceReturns(n: int)
    requires 0 <= n < FINE
    ensures TONToNanoton(NanotonToTON(n)) == n
  {
    if n > 0 {
      Float.ExactInteger(n);
      var z := n as real / 1_000_000_000.0;
      Scaled31(z);
      Float.AbsoluteError(z, 31);
      var q := Float.Round(z);
      Scaled31(q - z);
      var y := q * 1_000_000_000.0;
      Float.ScaledOnce(y);
      Float.AbsoluteError(y, 1);
      var p := Float.Round(y);
      Float.ScaledOnce(p - y);
      Money.RoundsTo(p, n);
    }
  }

  /** Seven nanoton above the bound it does not. */
  lemma CoarsePriceChanges()
    ensures TONToNanoton(NanotonToTON(FINE + 7)) == FINE + 8
  {
    var n := FINE + 7;
    Float.ExactInteger(n);
    var z := n as real / 1_000_000_000.0;
    Scaled30(z);
    Float.RoundByScale(z, 30);
    var q := Float.Round(z);
    Scaled30(q);
    assert q * 1_073_741_824.0 == 4_503_599_627_370_504.0;
    var y := q * 1_000_000_000.0;
    Float.ScaledOnce(y);
    Float.RoundByScale(y, 1);
    Float.ScaledOnce(Float.Round(y));
  }

  /** An amount in TON is stored to the nearest nanoton, up to what the double falls short of. */
  lemma NearestNanoton(ton: real)
    requires 0.0 <= ton < 4_194_304.0
    ensures -1.0 < TONToNanoton(ton) as real - 1_000_000_000.0 * ton < 1.0
  {
    var y := ton * 1_000_000_000.0;
    if ton > 0.0 {
      Float.ScaledOnce(y);
      Float.AbsoluteError(y, 1);
      Float.ScaledOnce(Float.Round(y) - y);
    }
  }

  /** A stored price is shown in TON to the nanoton. */
  lemma NearestTON(n: int)
    requires 0 <= n < FINE
    ensures -0.25 < 1_000_000_000.0 * NanotonToTON(n) - n as real < 0.25
  {
    if n > 0 {
      Float.ExactInteger(n);
      var z := n as real / 1_000_000_000.0;
      Scaled31(z);
      Float.AbsoluteError(z, 31);
      Scaled31(Float.Round(z) - z);
    }
  }

  /** Whole TON are converted exactly, a thousand million nanoton each. */
  lemma WholeTON(n: nat)
    requires n < 4_194_304
    ensures TONToNanoton(n as real) == n * 1_000_000_000
    ensures NanotonToTON(n * 1_000_000_000) == n as real
  {
    if n > 0 {
      var whole := n * 1_000_000_000;
      assert whole as real == n as real * 1_000_000_000.0;
      Float.ExactInteger(whole);
      Float.ExactInteger(n);
    }
  }

  // ----- durations -----

  /** `^\d+hr$` */
  predicate IsDuration(s: string) {
    |s| >= 3 && s[|s| - 2..] == "hr" && AllDigits(s[..|s| - 2])
  }

  function NormalizeDurationType(s: string): string {
    if IsDuration(s) then s else ""
  }

  function ParseDurationHours(s: string): int {
    if IsDuration(s) then ParseInt64(s[..|s| - 2]) else -1
  }

  lemma HoursAreNatural(s: string)
    requires IsDuration(s)
    ensures ParseDurationHours(s) >= 0
  {
    assert IsDigit(s[..|s| - 2][0]);
  }

  // ----- validation -----

  predicate IsPair(j: Json) {
    j.Array? && |j.items| == 2
  }

  predicate ValidSlot(j: Json) {
    && IsPair(j) && j.items[0].Text? && IsDuration(j.items[0].text)
    && j.items[1].Number? && j.items[1].x >= 0.0
  }

  predicate Valid(raw: Raw) {
    match raw
    case Empty => true
    case NotArray => false
    case Slots(slots) => forall i :: 0 <= i < |slots| ==> ValidSlot(slots[i])
  }

  method ValidateListingPrices(raw: Raw) returns (error: Option<PricesError>)
    ensures error == None <==> Valid(raw)
  {
    if raw.Empty? {
      return None;
    }
    if raw.NotArray? {
      return Some(NotAnArray);
    }
    for i := 0 to |raw.slots|
      invariant forall k :: 0 <= k < i ==> ValidSlot(raw.slots[k])
    {
      var slot := raw.slots[i];
      if !slot.Array? || |slot.items| != 2 {
        return Some(NotAPair(i));
      }
      if !slot.items[0].Text? || !IsDuration(slot.items[0].text) {
        return Some(BadDuration(i));
      }
      if !slot.items[1].Number? || slot.items[1].x < 0.0 {
        return Some(BadPrice(i));
      }
    }
    error := None;
  }

  // ----- conversion -----

  /** Encoding an integer and decoding it again gives the nearest double. */
  function NumberOf(n: int): Json {
    Number(Float.Round(n as real))
  }

  function InNanoton(j: Json): Json
    requires ValidSlot(j)
  {
    Array([j.items[0], NumberOf(TONToNanoton(j.items[1].x))])
  }

  /** Slots that are not pairs, or whose price is not a number from zero up, are dropped. */
  function Kept(slots: seq<Json>): seq<Json> {
    if slots == [] then []
    else
      var j := slots[|slots| - 1];
      Kept(slots[..|slots| - 1]) +
      if IsPair(j) && j.items[1].Number? && j.items[1].x >= 0.0
      then [Array([j.items[0], NumberOf(TONToNanoton(j.items[1].x))])]
      else []
  }

  /** The slots that can be stored: pairs whose price is a number from zero up. */
  function Usable(slots: seq<Json>): seq<Json> {
    if slots == [] then []
    else
      var j := slots[|slots| - 1];
      Usable(slots[..|slots| - 1]) + if IsPair(j) && j.items[1].Number? && j.items[1].x >= 0.0 then [j] else []
  }

  /** The same label, and a thousand million nanoton for each TON, to less than one nanoton. */
  predicate StoredAs(slot: Json, out: Json) {
    && IsPair(slot) && IsPair(out) && out.items[0] == slot.items[0] && slot.items[1].Number? && out.items[1].Number?
    && (slot.items[1].x < 4_194_304.0 ==> -1.0 < out.items[1].x - 1_000_000_000.0 * slot.items[1].x < 1.0)
  }

  predicate Pairwise(slots: seq<Json>, out: seq<Json>, related: (Json, Json) -> bool) {
    |slots| == |out| && forall i :: 0 <= i < |slots| ==> related(slots[i], out[i])
  }

  lemma KeptSlot(j: Json)
    requires IsPair(j) && j.items[1].Number? && j.items[1].x >= 0.0
    ensures StoredAs(j, Array([j.items[0], NumberOf(TONToNanoton(j.items[1].x))]))
  {
    if j.items[1].x < 4_194_304.0 {
      NearestNanoton(j.items[1].x);
      NeverNegative(j.items[1].x);
      StoredPrice(TONToNanoton(j.items[1].x));
    }
  }

  lemma {:induction false} KeptAreStored(slots: seq<Json>)
    ensures Pairwise(Usable(slots), Kept(slots), StoredAs)
  {
    if slots != [] {
      KeptAreStored(slots[..|slots| - 1]);
      var j := slots[|slots| - 1];
      if IsPair(j) && j.items[1].Number? && j.items[1].x >= 0.0 {
        KeptSlot(j);
      }
    }
  }

  method ConvertListingPricesTONToNanoton(raw: Raw) returns (r: Result<Raw, ()>)
    ensures raw.NotArray? <==> r.Err?
    ensures raw.Empty? ==> r == Ok(Empty)
    ensures raw.Slots? ==> r == Ok(Slots(Kept(raw.slots))) && Pairwise(Usable(raw.slots), r.value.slots, StoredAs)
  {
    if raw.Empty? {
      return Ok(raw);
    }
    if raw.NotArray? {
      return Err(());
    }
    var out: seq<Json> := [];
    for i := 0 to |raw.slots|
      invariant out == Kept(raw.slots[..i])
    {
      assert raw.slots[..i + 1][..i] == raw.slots[..i];
      var slot := raw.slots[i];
      if !slot.Array? || |slot.items| != 2 {
        continue;
      }
      if !slot.items[1].Number? || slot.items[1].x < 0.0 {
        continue;
      }
      out := out + [Array([slot.items[0], NumberOf(TONToNanoton(slot.items[1].x))])];
    }
    assert raw.slots[..|raw.slots|] == raw.slots;
    KeptAreStored(raw.slots);
    r := Ok(Slots(out));
  }

  /** A list that is accepted loses no slot and keeps its order when it is stored. */
  lemma {:induction false} NothingIsLost(slots: seq<Json>)
    requires Valid(Slots(slots))
    ensures |Kept(slots)| == |slots|
    ensures forall i :: 0 <= i < |slots| ==> Kept(slots)[i] == InNanoton(slots[i])
  {
    if slots != [] {
      var init := slots[..|slots| - 1];
      assert Valid(Slots(init));
      NothingIsLost(init);
      assert ValidSlot(slots[|slots| - 1]);
      forall i | 0 <= i < |slots|
        ensures Kept(slots)[i] == InNanoton(slots[i])
      {
        if i < |init| {
          assert slots[i] == init[i];
        }
      }
    }
  }

  function InTON(j: Json): Option<Json> {
    if IsPair(j) && j.items[1].Number?
    then Some(Array([j.items[0], Number(NanotonToTON(Truncate(j.items[1].x)))])) else None
  }

  function Shown(slots: seq<Json>): seq<Json> {
    if slots == [] then []
    else
      var j := InTON(slots[|slots| - 1]);
      Shown(slots[..|slots| - 1]) + if j.Some? then [j.value] else []
  }

  /** The slots that can be shown: pairs with a number. */
  function Showable(slots: seq<Json>): seq<Json> {
    if slots == [] then []
    else
      var j := slots[|slots| - 1];
      Showable(slots[..|slots| - 1]) + if IsPair(j) && j.items[1].Number? then [j] else []
  }

  /** The same label, and the stored nanoton in TON, to less than a quarter of a nanoton. */
  predicate ShownAs(slot: Json, out: Json) {
    && IsPair(slot) && IsPair(out) && out.items[0] == slot.items[0] && slot.items[1].Number? && out.items[1].Number?
    && (0.0 <= slot.items[1].x < FINE as real ==>
          -0.25 < 1_000_000_000.0 * out.items[1].x - slot.items[1].x.Floor as real < 0.25)
  }

  lemma ShownSlot(j: Json)
    requires IsPair(j) && j.items[1].Number?
    ensures ShownAs(j, Array([j.items[0], Number(NanotonToTON(Truncate(j.items[1].x)))]))
  {
    if 0.0 <= j.items[1].x < FINE as real {
      NearestTON(j.items[1].x.Floor);
    }
  }

  lemma {:induction false} AllAreShown(slots: seq<Json>)
    ensures Pairwise(Showable(slots), Shown(slots), ShownAs)
  {
    if slots != [] {
      AllAreShown(slots[..|slots| - 1]);
      var j := slots[|slots| - 1];
      if IsPair(j) && j.items[1].Number? {
        ShownSlot(j);
      }
    }
  }

  method ConvertListingPricesNanotonToTON(raw: Raw) returns (r: Result<Raw, ()>)
    ensures raw.NotArray? <==> r.Err?
    ensures raw.Empty? ==> r == Ok(Empty)
    ensures raw.Slots? ==> r == Ok(Slots(Shown(raw.slots))) && Pairwise(Showable(raw.slots), r.value.slots, ShownAs)
  {
    if raw.Empty? {
      return Ok(raw);
    }
    if raw.NotArray? {
      return Err(());
    }
    var out: seq<Json> := [];
    for i := 0 to |raw.slots|
      invariant out == Shown(raw.slots[..i])
    {
      assert raw.slots[..i + 1][..i] == raw.slots[..i];
      var slot := raw.slots[i];
      if !slot.Array? || |slot.items| != 2 || !slot.items[1].Number? {
        continue;
      }
      out := out + [Array([slot.items[0], Number(NanotonToTON(Truncate(slot.items[1].x)))])];
    }
    assert raw.slots[..|raw.slots|] == raw.slots;
    AllAreShown(raw.slots);
    r := Ok(Slots(out));
  }

  /** A stored list is shown slot by slot. */
  lemma {:induction false} EverySlotIsShown(slots: seq<Json>)
    requires forall i :: 0 <= i < |slots| ==> InTON(slots[i]).Some?
    ensures |Shown(slots)| == |slots|
    ensures forall i :: 0 <= i < |slots| ==> Shown(slots)[i] == InTON(slots[i]).value
  {
    if slots != [] {
      var init := slots[..|slots| - 1];
      EverySlotIsShown(init);
      forall i | 0 <= i < |slots|
        ensures Shown(slots)[i] == InTON(slots[i]).value
      {
        if i < |init| {
          assert slots[i] == init[i];
        }
      }
    }
  }

  // ----- matching a deal -----

  /** The slot of a listing that a deal refers to. */
  predicate Offers(j: Json, dealType: string, duration: int, price: int) {
    && IsPair(j) && j.items[0] == Text(dealType) && IsDuration(dealType) && ParseDurationHours(dealType) == duration
    && j.items[1].Number? && Truncate(j.items[1].x) == price
  }

  method DealPriceMatchesListing(prices: Raw, dealType: string, duration: int, price: int) returns (ok: bool)
    ensures ok <==>
      prices.Slots? && exists i :: 0 <= i < |prices.slots| && Offers(prices.slots[i], dealType, duration, price)
  {
    if !prices.Slots? {
      return false;
    }
    var norm := NormalizeDurationType(dealType);
    for i := 0 to |prices.slots|
      invariant forall k :: 0 <= k < i ==> !Offers(prices.slots[k], dealType, duration, price)
    {
      var slot := prices.slots[i];
      if !slot.Array? || |slot.items| != 2 {
        continue;
      }
      if !slot.items[0].Text? || !IsDuration(slot.items[0].text) {
        continue;
      }
      if !slot.items[1].Number? {
        continue;
      }
      var durStr := slot.items[0].text;
      if NormalizeDurationType(durStr) != norm || Truncate(slot.items[1].x) != price {
        continue;
      }
      HoursAreNatural(durStr);
      var hours := ParseDurationHours(durStr);
      if hours >= 0 && hours != duration {
        continue;
      }
      assert Offers(prices.slots[i], dealType, duration, price);
      return true;
    }
    ok := false;
  }

  /** What a side submits that takes a slot as it is shown: the slot's type, its hours, and its price in TON. */
  predicate Submitted(shown: Json, dealType: string, duration: int, price: int) {
    && IsPair(shown) && shown.items[0] == Text(dealType) && ParseDurationHours(dealType) == duration
    && shown.items[1].Number? && TONToNanoton(shown.items[1].x) == price
  }

  lemma StoredPrice(n: int)
    requires 0 <= n <= 0x20_0000_0000_0000
    ensures Float.Round(n as real) == n as real && Truncate(Float.Round(n as real)) == n
  {
    if n > 0 {
      Float.ExactInteger(n);
    }
  }

  lemma NeverNegative(ton: real)
    requires ton >= 0.0
    ensures TONToNanoton(ton) >= 0
  {
    if ton > 0.0 {
      Float.RelativeError(ton * 1_000_000_000.0);
    }
  }

  lemma StoredSlot(j: Json)
    requires ValidSlot(j) && TONToNanoton(j.items[1].x) < FINE
    ensures var n := TONToNanoton(j.items[1].x);
      && InTON(InNanoton(j)) == Some(Array([j.items[0], Number(NanotonToTON(n))]))
      && Truncate(InNanoton(j).items[1].x) == n
  {
    NeverNegative(j.items[1].x);
    StoredPrice(TONToNanoton(j.items[1].x));
  }

  /** What a side can say about one slot of an accepted list that matches it. */
  predicate Names(slot: Json, dealType: string, duration: int, price: int)
    requires IsPair(slot) && slot.items[1].Number?
  {
    && slot.items[0] == Text(dealType) && ParseDurationHours(dealType) == duration
    && TONToNanoton(slot.items[1].x) == price
  }

  lemma SlotPipeline(j: Json, dealType: string, duration: int, price: int)
    requires ValidSlot(j) && TONToNanoton(j.items[1].x) < FINE
    ensures InTON(InNanoton(j)).Some?
    ensures Submitted(InTON(InNanoton(j)).value, dealType, duration, price)
            <==> Offers(InNanoton(j), dealType, duration, price)
    ensures Offers(InNanoton(j), dealType, duration, price) <==> Names(j, dealType, duration, price)
  {
    StoredSlot(j);
    NeverNegative(j.items[1].x);
    ShownPriceReturns(TONToNanoton(j.items[1].x));
  }

  /**
   The whole pipeline: of a list that was accepted, with prices below 2^22 TON, every slot as it is shown can be
   submitted and matches the stored list; and what matches the stored list is a slot of the accepted one, with its
   own type and hours and exactly its price in nanoton.
   */
  lemma PricePipeline(slots: seq<Json>, dealType: string, duration: int, price: int)
    requires Valid(Slots(slots))
    requires forall i :: 0 <= i < |slots| ==> TONToNanoton(slots[i].items[1].x) < FINE
    ensures |Kept(slots)| == |Shown(Kept(slots))| == |slots|
    ensures forall i :: 0 <= i < |slots| ==>
      (Submitted(Shown(Kept(slots))[i], dealType, duration, price)
       <==> Offers(Kept(slots)[i], dealType, duration, price))
    ensures forall i :: 0 <= i < |slots| ==>
      (Offers(Kept(slots)[i], dealType, duration, price) <==> Names(slots[i], dealType, duration, price))
  {
    var kept := Kept(slots);
    NothingIsLost(slots);
    forall i | 0 <= i < |slots|
      ensures InTON(kept[i]).Some?
      ensures Submitted(InTON(kept[i]).value, dealType, duration, price) <==> Offers(kept[i], dealType, duration, price)
      ensures Offers(kept[i], dealType, duration, price) <==> Names(slots[i], dealType, duration, price)
    {
      assert ValidSlot(slots[i]) && kept[i] == InNanoton(slots[i]);
      SlotPipeline(slots[i], dealType, duration, price);
    }
    EverySlotIsShown(kept);
  }
}
