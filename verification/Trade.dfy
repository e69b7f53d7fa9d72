/**
  The two-party trade protocol: one player offers an item, the other acknowledges and answers with an
  item of their own, both accept, and the items change hands.

  First the protocol on values; the game's methods are proved against it below.
 */
module Trade {
  class Item {
  }

  datatype TradeState = TRADE_NONE | TRADE_INITIATED | TRADE_ACCEPT | TRADE_ACKNOWLEDGE | TRADE_TRANSFER

  class Player {
    const id: nat
    var tradeState: TradeState
    var tradePartner: Player?
    var tradeItem: Item?
  }

  datatype Trader = Trader(state: TradeState, partner: Player?, item: Item?)

  const IDLE := Trader(TRADE_NONE, null, null)

  /** Who is doing what, and which items are on offer by which player id. */
  datatype Desk = Desk(traders: map<Player, Trader>, offers: map<Item, nat>)

  // ---------------------------------------------------------------- the protocol

  /** The checks made before an offer: two different players, and an item not on offer already. */
  predicate MayStart(d: Desk, p: Player, q: Player, item: Item) {
    p in d.traders && q in d.traders && p != q && item !in d.offers
  }

  predicate StartAccepted(d: Desk, p: Player, q: Player)
    requires p in d.traders && q in d.traders
  {
    var tp, tq := d.traders[p], d.traders[q];
    && (tp.state == TRADE_NONE || (tp.state == TRADE_ACKNOWLEDGE && tp.partner == q))
    && (tq.state == TRADE_NONE || tq.partner == p)
  }

  function Start(d: Desk, p: Player, q: Player, item: Item): Desk
    requires p in d.traders && q in d.traders
  {
    if !StartAccepted(d, p, q) then d else
    var traders := d.traders[p := Trader(TRADE_INITIATED, q, item)];
    var answered := if d.traders[q].state == TRADE_NONE
                    then traders[q := traders[q].(state := TRADE_ACKNOWLEDGE, partner := p)] else traders;
    Desk(answered, d.offers[item := p.id])
  }

  /**
    What becomes of an acceptance: it is out of turn, it waits for the other side, a script denies it,
    the items do not fit, they change hands -- or the game trips over an item that is not there.
   */
  datatype Outcome = Ignored | Waiting | Denied | Failed | Swapped | Broken

  function Without(offers: map<Item, nat>, item: Item?): map<Item, nat> {
    if item == null then offers else offers - {item}
  }

  function AcceptOutcome(d: Desk, p: Player, deny: bool, fits: bool): Outcome
    requires p in d.traders
  {
    var t := d.traders[p];
    if t.state != TRADE_ACKNOWLEDGE && t.state != TRADE_INITIATED then Ignored
    else if t.partner == null || t.partner !in d.traders || d.traders[t.partner].state != TRADE_ACCEPT then Waiting
    else if deny then Denied
    else if t.item == null || d.traders[t.partner].item == null then Broken
    else if fits then Swapped
    else Failed
  }

  function Accept(d: Desk, p: Player, deny: bool, fits: bool): Desk
    requires p in d.traders
  {
    var t := d.traders[p];
    match AcceptOutcome(d, p, deny, fits)
    case Ignored => d
    case Waiting => Update(d, p, t.(state := TRADE_ACCEPT))
    case Denied => Update(d, p, t.(state := TRADE_ACCEPT))
    case Broken => Settle(d, p, t.partner, t.(state := TRADE_TRANSFER), d.traders[t.partner].(state := TRADE_TRANSFER))
    case Failed => Settle(d, p, t.partner, IDLE, IDLE)
    case Swapped => Settle(d, p, t.partner, IDLE, IDLE)
  }

  function Update(d: Desk, p: Player, t: Trader): Desk {
    d.(traders := d.traders[p := t])
  }

  /** Both sides get a new state, and their offers leave the register. */
  function Settle(d: Desk, p: Player, q: Player, tp: Trader, tq: Trader): Desk
    requires p in d.traders && q in d.traders
  {
    Desk(d.traders[p := tp][q := tq], Without(Without(d.offers, d.traders[p].item), d.traders[q].item))
  }

  function Close(d: Desk, p: Player): Desk
    requires p in d.traders
  {
    var t := d.traders[p];
    if t.state == TRADE_TRANSFER
        || (t.partner != null && t.partner in d.traders && d.traders[t.partner].state == TRADE_TRANSFER)
    then d
    else if t.partner == null || t.partner !in d.traders then
      Desk(d.traders[p := IDLE], Without(d.offers, t.item))
    else
      Settle(d, p, t.partner, IDLE, IDLE)
  }

  // ---------------------------------------------------------------- what every run keeps

  ghost predicate DistinctIds(d: Desk) {
    forall p, q :: p in d.traders && q in d.traders && p.id == q.id ==> p == q
  }

  /** Partners name each other, and exactly those without a partner are idle. */
  ghost predicate Symmetric(d: Desk) {
    forall p :: p in d.traders ==>
      var t := d.traders[p];
      && (t.partner == null <==> t.state == TRADE_NONE)
      && (t.partner != null ==> t.partner != p && t.partner in d.traders && d.traders[t.partner].partner == p)
  }

  /** Who must hold an offer, and who cannot. */
  ghost predicate OffersFit(d: Desk) {
    forall p :: p in d.traders ==>
      var t := d.traders[p];
      && t.state != TRADE_TRANSFER
      && (t.state == TRADE_NONE || t.state == TRADE_ACKNOWLEDGE ==> t.item == null)
      && (t.state == TRADE_INITIATED ==> t.item != null)
  }

  /** The register of offers is exactly the set of items players have on offer, under their ids. */
  ghost predicate Registered(d: Desk) {
    && (forall p :: p in d.traders && d.traders[p].item != null ==>
          d.traders[p].item in d.offers && d.offers[d.traders[p].item] == p.id)
    && (forall item :: item in d.offers ==>
          exists p :: p in d.traders && d.traders[p].item == item && p.id == d.offers[item])
  }

  ghost predicate Valid(d: Desk) {
    DistinctIds(d) && Symmetric(d) && OffersFit(d) && Registered(d)
  }

  /** Nobody has accepted without having an item on offer. */
  ghost predicate AcceptedWithOffer(d: Desk) {
    forall p :: p in d.traders && d.traders[p].state == TRADE_ACCEPT ==> d.traders[p].item != null
  }

  lemma OffersDiffer(d: Desk, p: Player, q: Player)
    requires DistinctIds(d) && Registered(d) && p in d.traders && q in d.traders && p != q
    requires d.traders[p].item != null
    ensures d.traders[p].item != d.traders[q].item
  {
  }

  lemma StartKeeps(d: Desk, p: Player, q: Player, item: Item)
    requires Valid(d) && MayStart(d, p, q, item)
    ensures Valid(Start(d, p, q, item))
    ensures AcceptedWithOffer(d) ==> AcceptedWithOffer(Start(d, p, q, item))
  {
    if StartAccepted(d, p, q) {
      StartRegistered(d, p, q, item);
      StartSymmetric(d, p, q, item);
      StartDistinct(d, p, q, item);
      hide DistinctIds, Symmetric, OffersFit, Registered, AcceptedWithOffer, Start;
    }
  }

  lemma StartDistinct(d: Desk, p: Player, q: Player, item: Item)
    requires DistinctIds(d) && MayStart(d, p, q, item) && StartAccepted(d, p, q)
    ensures DistinctIds(Start(d, p, q, item))
    ensures AcceptedWithOffer(d) ==> AcceptedWithOffer(Start(d, p, q, item))
  {
  }

  lemma StartSymmetric(d: Desk, p: Player, q: Player, item: Item)
    requires Symmetric(d) && OffersFit(d) && MayStart(d, p, q, item) && StartAccepted(d, p, q)
    ensures Symmetric(Start(d, p, q, item)) && OffersFit(Start(d, p, q, item))
  {
  }

  lemma StartRegistered(d: Desk, p: Player, q: Player, item: Item)
    requires DistinctIds(d) && OffersFit(d) && Registered(d) && MayStart(d, p, q, item) && StartAccepted(d, p, q)
    ensures Registered(Start(d, p, q, item))
  {
    var d' := Start(d, p, q, item);
    assert forall o :: o in d.traders && o != p ==> d'.traders[o].item == d.traders[o].item;
    forall i | i in d'.offers
      ensures exists o :: o in d'.traders && d'.traders[o].item == i && o.id == d'.offers[i]
    {
      if i == item {
        assert d'.traders[p].item == i && p.id == d'.offers[i];
      } else {
        var o :| o in d.traders && d.traders[o].item == i && o.id == d.offers[i];
        assert d'.traders[o].item == i;
      }
    }
  }

  lemma SettleKeeps(d: Desk, p: Player, q: Player)
    requires Valid(d) && p in d.traders && q in d.traders && d.traders[p].partner == q
    ensures Valid(Settle(d, p, q, IDLE, IDLE))
    ensures AcceptedWithOffer(d) ==> AcceptedWithOffer(Settle(d, p, q, IDLE, IDLE))
  {
    SettleSymmetric(d, p, q);
    SettleDistinct(d, p, q);
    hide DistinctIds, Symmetric, OffersFit, Registered, AcceptedWithOffer, Settle;
    SettleRegistered(d, p, q);
  }

  lemma SettleSymmetric(d: Desk, p: Player, q: Player)
    requires Symmetric(d) && OffersFit(d) && p in d.traders && q in d.traders && d.traders[p].partner == q
    ensures p != q && Symmetric(Settle(d, p, q, IDLE, IDLE)) && OffersFit(Settle(d, p, q, IDLE, IDLE))
  {
  }

  lemma SettleDistinct(d: Desk, p: Player, q: Player)
    requires DistinctIds(d) && p in d.traders && q in d.traders
    ensures DistinctIds(Settle(d, p, q, IDLE, IDLE))
    ensures AcceptedWithOffer(d) ==> AcceptedWithOffer(Settle(d, p, q, IDLE, IDLE))
  {
  }

  lemma SettleRegistered(d: Desk, p: Player, q: Player)
    requires DistinctIds(d) && Registered(d) && p in d.traders && q in d.traders && p != q
    ensures Registered(Settle(d, p, q, IDLE, IDLE))
  {
    var d' := Settle(d, p, q, IDLE, IDLE);
    forall o | o in d'.traders && d'.traders[o].item != null
      ensures d'.traders[o].item in d'.offers && d'.offers[d'.traders[o].item] == o.id
    {
      OffersDiffer(d, o, p);
      OffersDiffer(d, o, q);
    }
    forall i | i in d'.offers
      ensures exists o :: o in d'.traders && d'.traders[o].item == i && o.id == d'.offers[i]
    {
      var o :| o in d.traders && d.traders[o].item == i && o.id == d.offers[i];
      assert d'.traders[o].item == i;
    }
  }

  lemma UpdateKeeps(d: Desk, p: Player)
    requires Valid(d) && p in d.traders && d.traders[p].state in {TRADE_ACKNOWLEDGE, TRADE_INITIATED}
    ensures Valid(Update(d, p, d.traders[p].(state := TRADE_ACCEPT)))
  {
    var d' := Update(d, p, d.traders[p].(state := TRADE_ACCEPT));
    assert forall o :: o in d.traders ==>
        d'.traders[o].item == d.traders[o].item && d'.traders[o].partner == d.traders[o].partner;
    forall i | i in d'.offers
      ensures exists o :: o in d'.traders && d'.traders[o].item == i && o.id == d'.offers[i]
    {
      var o :| o in d.traders && d.traders[o].item == i && o.id == d.offers[i];
      assert d'.traders[o].item == i;
    }
  }

  /** An acceptance that does not trip over a missing item leaves a sound desk. */
  lemma AcceptKeeps(d: Desk, p: Player, deny: bool, fits: bool)
    requires Valid(d) && p in d.traders && !AcceptOutcome(d, p, deny, fits).Broken?
    ensures Valid(Accept(d, p, deny, fits))
  {
    hide Registered, DistinctIds;
    match AcceptOutcome(d, p, deny, fits)
    case Ignored =>
    case Waiting => UpdateKeeps(d, p);
    case Denied => UpdateKeeps(d, p);
    case Failed => SettleKeeps(d, p, d.traders[p].partner);
    case Swapped => SettleKeeps(d, p, d.traders[p].partner);
  }

  /**
    As long as only players with an offer accept, no acceptance can trip; the first player to accept
    without one breaks this for good.
   */
  lemma AcceptSafeExactly(d: Desk, p: Player, deny: bool, fits: bool)
    requires Valid(d) && AcceptedWithOffer(d) && p in d.traders
    ensures var outcome := AcceptOutcome(d, p, deny, fits);
            && (!outcome.Broken? && AcceptedWithOffer(Accept(d, p, deny, fits))
                <==> outcome.Ignored? || d.traders[p].item != null)
            && (outcome.Broken? <==> d.traders[p].state == TRADE_ACKNOWLEDGE && !deny
                                     && d.traders[d.traders[p].partner].state == TRADE_ACCEPT)
  {
    var d' := Accept(d, p, deny, fits);
    var outcome := AcceptOutcome(d, p, deny, fits);
    if outcome.Waiting? || outcome.Denied? {
      assert d'.traders[p].state == TRADE_ACCEPT;
    }
  }

  /** Two players, one of whom accepts what the other offers without offering anything: they never get free again. */
  lemma AcceptWithoutOfferBreaks(p: Player, q: Player, item: Item)
    requires p != q && p.id != q.id
    ensures var d0 := Desk(map[p := IDLE, q := IDLE], map[]);
            var d1 := Start(d0, p, q, item);
            var d2 := Accept(d1, q, false, true);
            && Valid(d0) && Valid(d1) && Valid(d2)
            && AcceptOutcome(d2, p, false, true) == Broken
            && var d3 := Accept(d2, p, false, true); Close(d3, p) == d3 && Close(d3, q) == d3
  {
    var d0 := Desk(map[p := IDLE, q := IDLE], map[]);
    StartKeeps(d0, p, q, item);
    var d1 := Start(d0, p, q, item);
    AcceptKeeps(d1, q, false, true);
  }

  /**
    A swap is between two different registered items, each under the id of its owner; afterwards both
    sides are idle, the register has lost just these two, and nobody else has noticed.
   */
  lemma SwapSettles(d: Desk, p: Player, deny: bool, fits: bool)
    requires Valid(d) && p in d.traders && AcceptOutcome(d, p, deny, fits) in {Swapped, Failed}
    ensures var q, d' := d.traders[p].partner, Accept(d, p, deny, fits);
            && q != null && q != p && q in d.traders
            && var i, j := d.traders[p].item, d.traders[q].item;
            && i != null && j != null && i != j
            && i in d.offers && d.offers[i] == p.id && j in d.offers && d.offers[j] == q.id
            && d'.offers == d.offers - {i, j}
            && d'.traders == d.traders[p := IDLE][q := IDLE]
  {
    OffersDiffer(d, p, d.traders[p].partner);
  }

  /** Offer, answer and two acceptances: the items change hands, and the desk is as it was. */
  lemma TradeCompletes(d: Desk, p: Player, q: Player, i: Item, j: Item)
    requires Valid(d) && MayStart(d, p, q, i) && j !in d.offers && i != j
    requires d.traders[p] == d.traders[q] == IDLE
    ensures var d1 := Start(d, p, q, i);
            var d2 := Start(d1, q, p, j);
            && d1.traders[q] == Trader(TRADE_ACKNOWLEDGE, p, null) && MayStart(d1, q, p, j)
            && d2.traders == d.traders[p := Trader(TRADE_INITIATED, q, i)][q := Trader(TRADE_INITIATED, p, j)]
            && d2.offers == d.offers[i := p.id][j := q.id]
            && (forall fits ::
                  && AcceptOutcome(d2, p, false, fits) == Waiting
                  && AcceptOutcome(Accept(d2, p, false, fits), q, true, fits) == Denied
                  && AcceptOutcome(Accept(d2, p, false, fits), q, false, fits) == (if fits then Swapped else Failed)
                  && Accept(Accept(d2, p, false, fits), q, false, fits) == d)
  {
    hide DistinctIds, Symmetric, Registered;
    var d1 := Start(d, p, q, i);
    assert d1.traders == d.traders[p := Trader(TRADE_INITIATED, q, i)][q := Trader(TRADE_ACKNOWLEDGE, p, null)];
    var d2 := Start(d1, q, p, j);
    assert d2.traders == d.traders[p := Trader(TRADE_INITIATED, q, i)][q := Trader(TRADE_INITIATED, p, j)];
    forall fits
      ensures AcceptOutcome(d2, p, false, fits) == Waiting
      ensures AcceptOutcome(Accept(d2, p, false, fits), q, true, fits) == Denied
      ensures AcceptOutcome(Accept(d2, p, false, fits), q, false, fits) == if fits then Swapped else Failed
      ensures Accept(Accept(d2, p, false, fits), q, false, fits) == d
    {
      BothAccept(d, d2, p, q, i, j, fits);
    }
  }

  lemma BothAccept(d: Desk, d2: Desk, p: Player, q: Player, i: Item, j: Item, fits: bool)
    requires p in d.traders && q in d.traders && p != q && i != j && i !in d.offers && j !in d.offers
    requires d.traders[p] == d.traders[q] == IDLE
    requires d2.traders == d.traders[p := Trader(TRADE_INITIATED, q, i)][q := Trader(TRADE_INITIATED, p, j)]
    requires d2.offers == d.offers[i := p.id][j := q.id]
    ensures AcceptOutcome(d2, p, false, fits) == Waiting
    ensures var d3 := Accept(d2, p, false, fits);
            && AcceptOutcome(d3, q, true, fits) == Denied
            && AcceptOutcome(d3, q, false, fits) == (if fits then Swapped else Failed)
            && Accept(d3, q, false, fits) == d
  {
    var d3 := Accept(d2, p, false, fits);
    assert d3.traders == d.traders[p := Trader(TRADE_ACCEPT, q, i)][q := Trader(TRADE_INITIATED, p, j)];
    assert d3.traders[q := IDLE][p := IDLE] == d.traders;
    assert d.offers[i := p.id][j := q.id] - {j} - {i} == d.offers;
  }

  /** Whoever breaks off, at whatever stage, both sides are free again and nothing is on offer between them. */
  lemma TradeCancels(d: Desk, p: Player, q: Player, i: Item)
    requires Valid(d) && MayStart(d, p, q, i) && d.traders[p] == d.traders[q] == IDLE
    ensures var d1 := Start(d, p, q, i); Close(d1, p) == d && Close(d1, q) == d
  {
    var d1 := Start(d, p, q, i);
    assert d.offers[i := p.id] - {i} == d.offers;
    assert d1.traders[p := IDLE][q := IDLE] == d.traders == d1.traders[q := IDLE][p := IDLE];
  }

  /**
    A start is refused, and changes nothing, exactly if one of the two is engaged elsewhere, or the first has an offer
    out or has accepted already.
   */
  lemma StartsExactly(d: Desk, p: Player, q: Player, item: Item)
    requires Valid(d) && MayStart(d, p, q, item)
    ensures Start(d, p, q, item) == d <==>
              || (d.traders[p].partner != null && d.traders[p].partner != q)
              || (d.traders[q].partner != null && d.traders[q].partner != p)
              || d.traders[p].item != null || d.traders[p].state == TRADE_ACCEPT
    ensures Start(d, p, q, item) != d ==>
              && Start(d, p, q, item).traders[p] == Trader(TRADE_INITIATED, q, item)
              && Start(d, p, q, item).traders[q].partner == p && Start(d, p, q, item).offers == d.offers[item := p.id]
  {
    hide DistinctIds, Registered;
    if StartAccepted(d, p, q) {
      assert item in Start(d, p, q, item).offers;
    }
  }

  /** Both sides are free, their offers are gone, and nobody else has noticed. */
  lemma CloseFrees(d: Desk, p: Player)
    requires Valid(d) && p in d.traders
    ensures var d', q := Close(d, p), d.traders[p].partner;
            if q == null then d' == d
            else
              && d'.traders == d.traders[p := IDLE][q := IDLE]
              && d'.offers == map i | i in d.offers && i != d.traders[p].item && i != d.traders[q].item :: d.offers[i]
  {
    hide DistinctIds;
    if d.traders[p].partner == null {
      assert d.traders[p := IDLE] == d.traders;
    }
  }

  lemma CloseKeeps(d: Desk, p: Player)
    requires Valid(d) && p in d.traders
    ensures Valid(Close(d, p))
    ensures AcceptedWithOffer(d) ==> AcceptedWithOffer(Close(d, p))
    ensures Close(d, p).traders[p] == IDLE
  {
    if d.traders[p].partner != null {
      SettleKeeps(d, p, d.traders[p].partner);
    } else {
      assert Close(d, p).traders == d.traders;
    }
  }

  // ---------------------------------------------------------------- runs

  datatype Call =
    | StartTrade(p: Player, q: Player, item: Item)
    | AcceptTrade(p: Player, deny: bool, fits: bool)
    | CloseTrade(p: Player)

  /** Calls reach the protocol only through the checks in front of it. */
  predicate Admitted(d: Desk, c: Call) {
    match c
    case StartTrade(p, q, item) => MayStart(d, p, q, item)
    case AcceptTrade(p, _, _) => p in d.traders
    case CloseTrade(p) => p in d.traders
  }

  function Step(d: Desk, c: Call): Desk {
    if !Admitted(d, c) then d else
    match c
    case StartTrade(p, q, item) => Start(d, p, q, item)
    case AcceptTrade(p, deny, fits) => Accept(d, p, deny, fits)
    case CloseTrade(p) => Close(d, p)
  }

  /** Nobody accepts without having something on offer. */
  predicate Honest(d: Desk, calls: seq<Call>)
    decreases calls
  {
    calls == [] ||
    ( && (calls[0].AcceptTrade? && calls[0].p in d.traders ==> d.traders[calls[0].p].item != null)
      && Honest(Step(d, calls[0]), calls[1..]))
  }

  function Run(d: Desk, calls: seq<Call>): Desk
    decreases calls
  {
    if calls == [] then d else Run(Step(d, calls[0]), calls[1..])
  }

  predicate Breaks(d: Desk, calls: seq<Call>)
    decreases calls
  {
    calls != [] &&
    ( || (calls[0].AcceptTrade? && calls[0].p in d.traders
          && AcceptOutcome(d, calls[0].p, calls[0].deny, calls[0].fits).Broken?)
      || Breaks(Step(d, calls[0]), calls[1..]))
  }

  lemma StepKeeps(d: Desk, c: Call)
    requires Valid(d) && AcceptedWithOffer(d)
    requires c.AcceptTrade? && c.p in d.traders ==> d.traders[c.p].item != null
    ensures Valid(Step(d, c)) && AcceptedWithOffer(Step(d, c))
    ensures c.AcceptTrade? && c.p in d.traders ==> !AcceptOutcome(d, c.p, c.deny, c.fits).Broken?
  {
    hide Valid, AcceptedWithOffer, Start, Accept, Close;
    if Admitted(d, c) {
      match c
      case StartTrade(p, q, item) => StartKeeps(d, p, q, item);
      case AcceptTrade(p, deny, fits) => AcceptSafeExactly(d, p, deny, fits); AcceptKeeps(d, p, deny, fits);
      case CloseTrade(p) => CloseKeeps(d, p);
    }
  }

  /** Any number of players, any run: the desk stays sound and no transfer trips. */
  lemma {:induction false} RunKeeps(d: Desk, calls: seq<Call>)
    requires Valid(d) && AcceptedWithOffer(d) && Honest(d, calls)
    ensures Valid(Run(d, calls)) && AcceptedWithOffer(Run(d, calls)) && !Breaks(d, calls)
    decreases calls
  {
    hide Valid, AcceptedWithOffer, Step;
    if calls != [] {
      StepKeeps(d, calls[0]);
      RunKeeps(Step(d, calls[0]), calls[1..]);
    }
  }
}
