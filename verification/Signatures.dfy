/**
 What a signature commits to.  The hash is taken as free of collisions, so that a signature stands for the bytes that
 were hashed; these are the fields one after the other, without separators.
 */
module Signatures {
  import opened Decimal
  import opened Deals
  import opened DealLife
  import opened Scripts
  import Prices

  function Payload(t: Terms, user: int, lessorPayout: string, lesseePayout: string): string {
    t.dealType + Print(t.duration) + Print(t.price) + t.details.raw + Print(user) + lessorPayout + lesseePayout
  }

  /** The configuration whose signatures are these bytes. */
  function Signing(env: Config): Config {
    env.(sign := Payload)
  }

  // ----- one payload, two agreements -----

  const ONE_HOUR_FOR_23: Terms := Terms("1hr", 1, 23, Details("{}", "ad", None))
  const TWELVE_HOURS_FOR_3: Terms := Terms("1hr", 12, 3, Details("{}", "ad", None))

  /** One hour for 23 nanoton and twelve hours for 3 have the same signature. */
  lemma SamePayload(user: int, lessorPayout: string, lesseePayout: string)
    ensures Payload(ONE_HOUR_FOR_23, user, lessorPayout, lesseePayout) ==
            Payload(TWELVE_HOURS_FOR_3, user, lessorPayout, lesseePayout)
  {
    assert Print(1) == "1" && Print(3) == "3";
    assert PrintNat(1) == "1" && PrintNat(2) == "2";
    assert PrintNat(23) == PrintNat(2) + "3" == "23" && PrintNat(12) == PrintNat(1) + "2" == "12";
    assert Print(23) == "23" && Print(12) == "12";
    assert "1hr" + "1" + "23" == "1hr" + "12" + "3";
  }

  /** Both sides have read the deal and asked to sign it, the terms change, and then both requests commit. */
  function LateSigning(cfg: Config, d: Deal, other: Terms): seq<CellEvent> {
    [OnDraft(SignRead(d.lessor, Some(d.lessorPayout))), OnDraft(SignRead(d.lessee, Some(d.lesseePayout))),
     OnDraft(EditDraft(d.lessor, other))] +
    [OnDraft(SignCommit(SignRequest(d.lessor, cfg.sign(d.terms, d.lessor, d.lessorPayout, d.lesseePayout)))),
     OnDraft(SignCommit(SignRequest(d.lessee, cfg.sign(d.terms, d.lessee, d.lessorPayout, d.lesseePayout))))]
  }

  predicate ReadyToSign(d: Deal) {
    && d.status == Draft && d.lessor != d.lessee && PayoutsSet(d) && !Blank(d.terms.details.message)
  }

  /** Terms that neither side has read are approved if and only if their signatures are those of the terms read. */
  lemma LateSigningApproves(cfg: Config, now: int, c: Cell, other: Terms)
    requires ReadyToSign(c.deal)
    ensures var d := c.deal;
      var d' := Steps(cfg, now, c, LateSigning(cfg, d, other)).deal;
      && d'.terms == other
      && (d'.status == Approved
          <==> && cfg.sign(other, d.lessor, d.lessorPayout, d.lesseePayout)
                  == cfg.sign(d.terms, d.lessor, d.lessorPayout, d.lesseePayout)
               && cfg.sign(other, d.lessee, d.lessorPayout, d.lesseePayout)
                  == cfg.sign(d.terms, d.lessee, d.lessorPayout, d.lesseePayout))
  {
    var d := c.deal;
    var r1 := SignRequest(d.lessor, cfg.sign(d.terms, d.lessor, d.lessorPayout, d.lesseePayout));
    var r2 := SignRequest(d.lessee, cfg.sign(d.terms, d.lessee, d.lessorPayout, d.lesseePayout));
    var first := [OnDraft(SignRead(d.lessor, Some(d.lessorPayout))), OnDraft(SignRead(d.lessee, Some(d.lesseePayout))),
                  OnDraft(EditDraft(d.lessor, other))];
    StepsConcat(cfg, now, c, first, [OnDraft(SignCommit(r1)), OnDraft(SignCommit(r2))]);
    Steps3(cfg, now, c, first[0], first[1], first[2]);
    var c' := Steps(cfg, now, c, first);
    assert c'.deal == d.(terms := other, escrowAmount := cfg.compute(other.price),
                         lessorSignature := None, lesseeSignature := None);
    Steps2(cfg, now, c', OnDraft(SignCommit(r1)), OnDraft(SignCommit(r2)));
  }

  /**
   So on the level of the service, which does not look at the listing, two sides that have read and signed one hour
   for 23 can find twelve hours for 3 approved.
   */
  lemma SignedOneApprovedOther(env: Config, now: int, c: Cell)
    requires ReadyToSign(c.deal) && c.deal.terms == ONE_HOUR_FOR_23
    ensures var d' := Steps(Signing(env), now, c, LateSigning(Signing(env), c.deal, TWELVE_HOURS_FOR_3)).deal;
      d'.status == Approved && d'.terms == TWELVE_HOURS_FOR_3
  {
    var d := c.deal;
    SamePayload(d.lessor, d.lessorPayout, d.lesseePayout);
    SamePayload(d.lessee, d.lessorPayout, d.lesseePayout);
    LateSigningApproves(Signing(env), now, c, TWELVE_HOURS_FOR_3);
  }

  // ----- one signature, two pairs of payout addresses -----

  lemma PayloadTail(t: Terms, u: int, a: string, b: string)
    ensures Payload(t, u, a, b) == t.dealType + Print(t.duration) + Print(t.price) + t.details.raw + (Print(u) + a + b)
  {
  }

  /** On the same terms, a signature is that for other payout addresses if and only if both pairs join to one string. */
  lemma AddressesRunTogether(t: Terms, u: int, a: string, b: string, a': string, b': string)
    ensures Payload(t, u, a, b) == Payload(t, u, a', b') <==> a + b == a' + b'
  {
    var head := t.dealType + Print(t.duration) + Print(t.price) + t.details.raw + Print(u);
    assert Payload(t, u, a, b) == head + (a + b) && Payload(t, u, a', b') == head + (a' + b');
    if head + (a + b) == head + (a' + b') {
      SameLength(head, a + b, head, a' + b');
    }
  }

  /** The lessor signs, both sides change their payout addresses, and then the lessee signs. */
  function SigningAround(cfg: Config, d: Deal, a: string, b: string): seq<CellEvent> {
    SignScript(d.lessor, Some(d.lessorPayout), cfg.sign(d.terms, d.lessor, d.lessorPayout, d.lesseePayout)) +
    ([OnDraft(EditPayout(d.lessor, a)), OnDraft(EditPayout(d.lessee, b))] +
     SignScript(d.lessee, Some(b), cfg.sign(d.terms, d.lessee, a, b)))
  }

  /**
   Changing a payout address leaves signatures in place.  So with no late request and no change of the terms, the deal
   is approved on payout addresses that the lessor has not signed, if and only if they join to the same string as those
   that it has.
   */
  lemma SignedOtherAddresses(env: Config, now: int, c: Cell, a: string, b: string)
    requires ReadyToSign(c.deal) && c.deal.lesseeSignature == None && a != "" && b != ""
    ensures var d := c.deal;
      var d' := Steps(Signing(env), now, c, SigningAround(Signing(env), d, a, b)).deal;
      && d'.lessorPayout == a && d'.lesseePayout == b && d'.terms == d.terms
      && d'.lessorSignature == Some(Payload(d.terms, d.lessor, d.lessorPayout, d.lesseePayout))
      && (d'.status == Approved <==> a + b == d.lessorPayout + d.lesseePayout)
  {
    var cfg, d := Signing(env), c.deal;
    var sig := cfg.sign(d.terms, d.lessor, d.lessorPayout, d.lesseePayout);
    var first := SignScript(d.lessor, Some(d.lessorPayout), sig);
    var edits := [OnDraft(EditPayout(d.lessor, a)), OnDraft(EditPayout(d.lessee, b))];
    var last := SignScript(d.lessee, Some(b), cfg.sign(d.terms, d.lessee, a, b));
    StepsConcat(cfg, now, c, first, edits + last);
    Steps2(cfg, now, c, first[0], first[1]);
    var c1 := Steps(cfg, now, c, first);
    StepsConcat(cfg, now, c1, edits, last);
    Steps2(cfg, now, c1, edits[0], edits[1]);
    var c2 := Steps(cfg, now, c1, edits);
    Steps2(cfg, now, c2, last[0], last[1]);
    AddressesRunTogether(d.terms, d.lessor, d.lessorPayout, d.lesseePayout, a, b);
  }

  // ----- when the payload does determine the agreement -----

  /** A duration type whose hours are the duration, as matching a listing demands, and details that are an object. */
  predicate WellShaped(t: Terms) {
    && Prices.IsDuration(t.dealType) && Prices.ParseDurationHours(t.dealType) == t.duration && t.price >= 0
    && |t.details.raw| >= 2 && t.details.raw[0] == '{' && t.details.raw[|t.details.raw| - 1] == '}'
  }

  /** Where a reader of a JSON text stands: how many brackets are open, and whether it is inside a string. */
  datatype Scan = Scan(depth: int, inString: bool, escaped: bool)

  function Feed(s: Scan, c: char): Scan {
    if s.escaped then s.(escaped := false)
    else if s.inString then
      if c == '\\' then s.(escaped := true) else if c == '"' then s.(inString := false) else s
    else if c == '"' then s.(inString := true)
    else if c == '{' || c == '[' then s.(depth := s.depth + 1)
    else if c == '}' || c == ']' then s.(depth := s.depth - 1)
    else s
  }

  function Scanned(text: string): Scan {
    if text == "" then Scan(0, false, false) else Feed(Scanned(text[..|text| - 1]), text[|text| - 1])
  }

  predicate Closed(text: string) {
    Scanned(text).depth == 0 && !Scanned(text).inString
  }

  /** The text of one JSON object: its first bracket is closed by its last character and not before. */
  predicate ObjectText(text: string) {
    && |text| >= 2 && text[0] == '{' && text[|text| - 1] == '}' && Closed(text)
    && forall n :: 0 < n < |text| ==> !Closed(text[..n])
  }

  lemma Prefix(raw: string, rest: string, raw': string, rest': string)
    requires raw + rest == raw' + rest' && |raw| <= |raw'|
    ensures raw'[..|raw|] == raw
  {
    var all := raw + rest;
    assert raw == all[..|raw|] && raw'[..|raw|] == all[..|raw|];
  }

  lemma NotShorter(raw: string, rest: string, raw': string, rest': string)
    requires ObjectText(raw) && ObjectText(raw') && raw + rest == raw' + rest'
    ensures |raw| >= |raw'|
  {
    if |raw| <= |raw'| {
      Prefix(raw, rest, raw', rest');
    }
  }

  /** Two such texts with anything behind them are equal texts. */
  lemma ObjectsFirst(raw: string, rest: string, raw': string, rest': string)
    requires ObjectText(raw) && ObjectText(raw') && raw + rest == raw' + rest'
    ensures raw == raw' && rest == rest'
  {
    NotShorter(raw, rest, raw', rest');
    NotShorter(raw', rest', raw, rest);
    SameLength(raw, rest, raw', rest');
  }

  lemma DigitsUpTo(s: string, a: string, c: string, n: nat)
    requires s == a + c && AllDigits(a) && n < |s| && !IsDigit(s[n])
    ensures |a| <= n
  {
    assert forall i :: 0 <= i < |a| ==> s[i] == a[i];
  }

  /** A run of digits that something else follows ends where it ends. */
  lemma DigitsFirst(a: string, c: string, a': string, c': string)
    requires AllDigits(a) && AllDigits(a') && c != [] && c' != [] && !IsDigit(c[0]) && !IsDigit(c'[0])
    requires a + c == a' + c'
    ensures a == a' && c == c'
  {
    assert (a + c)[|a|] == c[0] && (a' + c')[|a'|] == c'[0];
    DigitsUpTo(a + c, a, c, |a'|);
    DigitsUpTo(a + c, a', c', |a|);
    SameLength(a, c, a', c');
  }

  lemma DigitsDownTo(s: string, c: string, a: string, n: nat)
    requires s == c + a && AllDigits(a) && n < |s| && !IsDigit(s[n])
    ensures n < |c|
  {
    assert forall i :: |c| <= i < |s| ==> s[i] == a[i - |c|];
  }

  lemma DigitsLast(c: string, a: string, c': string, a': string)
    requires AllDigits(a) && AllDigits(a') && c != [] && c' != [] && !IsDigit(c[|c| - 1]) && !IsDigit(c'[|c'| - 1])
    requires c + a == c' + a'
    ensures a == a' && c == c'
  {
    assert (c + a)[|c| - 1] == c[|c| - 1] && (c' + a')[|c'| - 1] == c'[|c'| - 1];
    DigitsDownTo(c + a, c, a, |c'| - 1);
    DigitsDownTo(c + a, c', a', |c| - 1);
    SameLength(c, a, c', a');
  }

  lemma SameLength(a: string, c: string, a': string, c': string)
    requires a + c == a' + c' && |a| == |a'|
    ensures a == a' && c == c'
  {
    assert a == (a + c)[..|a|] && a' == (a' + c')[..|a'|];
    assert c == (a + c)[|a|..] && c' == (a' + c')[|a'|..];
  }

  lemma TypesFirst(s: string, c: string, s': string, c': string)
    requires Prices.IsDuration(s) && Prices.IsDuration(s') && s + c == s' + c'
    ensures s == s' && c == c'
  {
    var a, a' := s[..|s| - 2], s'[..|s'| - 2];
    assert s + c == a + ("hr" + c) && s' + c' == a' + ("hr" + c');
    DigitsFirst(a, "hr" + c, a', "hr" + c');
    assert c == ("hr" + c)[2..] && c' == ("hr" + c')[2..];
    assert s == a + "hr" && s' == a' + "hr";
  }

  /** The pieces of a payload, as strings. */
  function Joined(ty: string, d: string, p: string, raw: string, u: string, a: string, b: string): string {
    ty + d + p + raw + u + a + b
  }

  lemma WithoutAddresses(head: string, a: string, b: string, head': string, a': string, b': string)
    requires |a| == |a'| && |b| == |b'| && head + a + b == head' + a' + b'
    ensures head == head' && a == a' && b == b'
  {
    SameLength(head + a, b, head' + a', b');
    SameLength(head, a, head', a');
  }

  /** Price, details and user come apart, because no digit of the details' own precedes or follows them. */
  lemma TailSplits(p: string, raw: string, u: string, p': string, raw': string, u': string)
    requires AllDigits(p) && AllDigits(p') && AllDigits(u) && AllDigits(u') && raw != [] && raw' != []
    requires !IsDigit(raw[0]) && !IsDigit(raw'[0]) && !IsDigit(raw[|raw| - 1]) && !IsDigit(raw'[|raw'| - 1])
    requires p + raw + u == p' + raw' + u'
    ensures p == p' && raw == raw' && u == u'
  {
    assert p + raw + u == p + (raw + u) && p' + raw' + u' == p' + (raw' + u');
    DigitsFirst(p, raw + u, p', raw' + u');
    DigitsLast(raw, u, raw', u');
  }

  lemma HeadSplits(ty: string, d: string, rest: string, ty': string, d': string, rest': string)
    requires Prices.IsDuration(ty) && Prices.IsDuration(ty') && ty + d + rest == ty' + d' + rest'
    requires ty == ty' ==> d == d'
    ensures ty == ty' && rest == rest'
  {
    assert ty + d + rest == ty + (d + rest) && ty' + d' + rest' == ty' + (d' + rest');
    TypesFirst(ty, d + rest, ty', d' + rest');
    SameLength(d, rest, d', rest');
  }

  lemma JoinedSplits(ty: string, d: string, p: string, raw: string, u: string, a: string, b: string,
                     ty': string, d': string, p': string, raw': string, u': string, a': string, b': string)
    requires Joined(ty, d, p, raw, u, a, b) == Joined(ty', d', p', raw', u', a', b')
    requires |a| == |a'| && |b| == |b'| && Prices.IsDuration(ty) && Prices.IsDuration(ty') && (ty == ty' ==> d == d')
    requires AllDigits(p) && AllDigits(p') && AllDigits(u) && AllDigits(u') && raw != [] && raw' != []
    requires !IsDigit(raw[0]) && !IsDigit(raw'[0]) && !IsDigit(raw[|raw| - 1]) && !IsDigit(raw'[|raw'| - 1])
    ensures ty == ty' && p == p' && raw == raw' && u == u' && a == a' && b == b'
  {
    WithoutAddresses(ty + d + p + raw + u, a, b, ty' + d' + p' + raw' + u', a', b');
    assert ty + d + p + raw + u == ty + d + (p + raw + u) && ty' + d' + p' + raw' + u' == ty' + d' + (p' + raw' + u');
    HeadSplits(ty, d, p + raw + u, ty', d', p' + raw' + u');
    TailSplits(p, raw, u, p', raw', u');
  }

  /** Price and details come apart from what follows. */
  lemma PriceAndDetails(p: string, raw: string, rest: string, p': string, raw': string, rest': string)
    requires AllDigits(p) && AllDigits(p') && ObjectText(raw) && ObjectText(raw')
    requires p + raw + rest == p' + raw' + rest'
    ensures p == p' && raw == raw' && rest == rest'
  {
    assert p + raw + rest == p + (raw + rest) && p' + raw' + rest' == p' + (raw' + rest');
    DigitsFirst(p, raw + rest, p', raw' + rest');
    ObjectsFirst(raw, rest, raw', rest');
  }

  /** The terms that a payload stands for, and what follows them. */
  predicate SameTerms(t: Terms, t': Terms) {
    t.dealType == t'.dealType && t.duration == t'.duration && t.price == t'.price && t.details.raw == t'.details.raw
  }

  /**
   For deals that match a listing and whose details are an object, the payload determines the terms; of user and payout
   addresses it determines no more than the string that they join to.
   */
  lemma SamePayloadIff(t: Terms, u: int, a: string, b: string, t': Terms, u': int, a': string, b': string)
    requires WellShaped(t) && WellShaped(t') && ObjectText(t.details.raw) && ObjectText(t'.details.raw)
    ensures Payload(t, u, a, b) == Payload(t', u', a', b')
            <==> SameTerms(t, t') && Print(u) + a + b == Print(u') + a' + b'
  {
    PayloadTail(t, u, a, b);
    PayloadTail(t', u', a', b');
    if Payload(t, u, a, b) == Payload(t', u', a', b') {
      PiecesSplit(t.dealType, Print(t.duration), Print(t.price), t.details.raw, Print(u) + a + b,
                  t'.dealType, Print(t'.duration), Print(t'.price), t'.details.raw, Print(u') + a' + b');
      PrintNatInjective(t.price, t'.price);
    }
  }

  lemma PiecesSplit(ty: string, d: string, p: string, raw: string, rest: string,
                    ty': string, d': string, p': string, raw': string, rest': string)
    requires ty + d + p + raw + rest == ty' + d' + p' + raw' + rest'
    requires Prices.IsDuration(ty) && Prices.IsDuration(ty') && (ty == ty' ==> d == d')
    requires AllDigits(p) && AllDigits(p') && ObjectText(raw) && ObjectText(raw')
    ensures ty == ty' && p == p' && raw == raw' && rest == rest'
  {
    Regroup(ty, d, p, raw, rest);
    Regroup(ty', d', p', raw', rest');
    HeadSplits(ty, d, p + raw + rest, ty', d', p' + raw' + rest');
    PriceAndDetails(p, raw, rest, p', raw', rest');
  }

  lemma Regroup(ty: string, d: string, p: string, raw: string, rest: string)
    ensures ty + d + p + raw + rest == ty + d + (p + raw + rest)
  {
  }

  /** If at most one side's payout address differs, the payload of a user determines the whole agreement. */
  lemma OneAddressDetermines(t: Terms, u: int, a: string, b: string, t': Terms, a': string, b': string)
    requires WellShaped(t) && WellShaped(t') && ObjectText(t.details.raw) && ObjectText(t'.details.raw)
    requires (a == a' || b == b') && Payload(t, u, a, b) == Payload(t', u, a', b')
    ensures SameTerms(t, t') && a == a' && b == b'
  {
    SamePayloadIff(t, u, a, b, t', u, a', b');
    OneSideSplits(Print(u), a, b, a', b');
  }

  lemma OneSideSplits(u: string, a: string, b: string, a': string, b': string)
    requires u + a + b == u + a' + b' && (a == a' || b == b')
    ensures a == a' && b == b'
  {
    assert |u + a + b| == |u| + |a| + |b| && |u + a' + b'| == |u| + |a'| + |b'|;
    WithoutAddresses(u, a, b, u, a', b');
  }

  /**
   With payout addresses of the same lengths, as raw addresses of one workchain have them, equal payloads mean the same
   type, duration, price, details, user and payout addresses.
   */
  lemma PayloadDetermines(t: Terms, u: nat, a: string, b: string, t': Terms, u': nat, a': string, b': string)
    requires WellShaped(t) && WellShaped(t') && |a| == |a'| && |b| == |b'|
    requires Payload(t, u, a, b) == Payload(t', u', a', b')
    ensures t.dealType == t'.dealType && t.duration == t'.duration && t.price == t'.price
    ensures t.details.raw == t'.details.raw && u == u' && a == a' && b == b'
  {
    JoinedSplits(t.dealType, Print(t.duration), Print(t.price), t.details.raw, Print(u), a, b,
                 t'.dealType, Print(t'.duration), Print(t'.price), t'.details.raw, Print(u'), a', b');
    PrintNatInjective(t.price, t'.price);
    PrintNatInjective(u, u');
  }
}
