/** The game's side of trading: the methods that move the players' trade fields and the register. */
module TradeGame {
  import opened Trade

  class Game {
    const players: set<Player>
    var tradeItems: map<Item, nat>

    constructor (players: set<Player>)
      ensures this.players == players && tradeItems == map[]
    {
      this.players := players;
      tradeItems := map[];
    }

    function State(): Desk
      reads this, players
    {
      Desk(map p | p in players :: Trader(p.tradeState, p.tradePartner, p.tradeItem), tradeItems)
    }

    method InternalStartTrade(player: Player, tradePartner: Player, tradeItem: Item) returns (ok: bool)
      requires MayStart(State(), player, tradePartner, tradeItem)
      modifies this, player, tradePartner
      ensures ok <==> StartAccepted(old(State()), player, tradePartner)
      ensures State() == Start(old(State()), player, tradePartner, tradeItem)
    {
      if player.tradeState != TRADE_NONE
          && !(player.tradeState == TRADE_ACKNOWLEDGE && player.tradePartner == tradePartner) {
        return false;
      } else if tradePartner.tradeState != TRADE_NONE && tradePartner.tradePartner != player {
        return false;
      }
      player.tradePartner := tradePartner;
      player.tradeItem := tradeItem;
      player.tradeState := TRADE_INITIATED;
      tradeItems := tradeItems[tradeItem := player.id];
      if tradePartner.tradeState == TRADE_NONE {
        tradePartner.tradeState := TRADE_ACKNOWLEDGE;
        tradePartner.tradePartner := player;
      }
      return true;
    }

    method Unregister(item: Item?)
      modifies this
      ensures State() == old(State()).(offers := Without(old(State()).offers, item))
    {
      if item != null {
        tradeItems := tradeItems - {item};
      }
    }

    method SetTradeState(player: Player, state: TradeState)
      requires player in players
      modifies player
      ensures State() == Update(old(State()), player, old(State()).traders[player].(state := state))
      ensures player.tradePartner == old(player.tradePartner) && player.tradeItem == old(player.tradeItem)
      ensures player.tradeState == state
    {
      player.tradeState := state;
    }

    method Reset(player: Player)
      requires player in players
      modifies player
      ensures State() == Update(old(State()), player, IDLE)
    {
      player.tradeState := TRADE_NONE;
      player.tradeItem := null;
      player.tradePartner := null;
    }

    lemma Fields(player: Player)
      requires player in players
      ensures player in State().traders && State().traders.Keys == players
      ensures State().traders[player] == Trader(player.tradeState, player.tradePartner, player.tradeItem)
      ensures State().offers == tradeItems
    {
    }

    /** `deny` is the verdict of the scripts, `fits` that of the checks on both players' inventories. */
    method PlayerAcceptTrade(player: Player, deny: bool, fits: bool) returns (outcome: Outcome)
      requires Valid(State()) && player in players
      modifies this, players
      ensures outcome == AcceptOutcome(old(State()), player, deny, fits)
      ensures State() == Accept(old(State()), player, deny, fits)
    {
      hide Game.State, Valid, Settle, Accept, AcceptOutcome;
      ghost var d := State();
      Fields(player);
      if !(player.tradeState == TRADE_ACKNOWLEDGE || player.tradeState == TRADE_INITIATED) {
        AcceptIgnored(d, player, deny, fits);
        return Ignored;
      }
      PartnerFacts(d, player);
      AcceptCases(d, player, deny, fits);
      var tradePartner: Player := player.tradePartner;
      Fields(tradePartner);
      SetTradeState(player, TRADE_ACCEPT);
      Fields(tradePartner);
      if tradePartner.tradeState != TRADE_ACCEPT {
        return Waiting;
      }
      if deny {
        return Denied;
      }
      SettleAfterUpdate(d, player, tradePartner);
      outcome := Transfer(player, tradePartner, fits);
    }

    /** Both sides have accepted: their offers leave the register, and both are reset. */
    method Transfer(player: Player, tradePartner: Player, fits: bool) returns (outcome: Outcome)
      requires player in players && tradePartner in players && player != tradePartner
      modifies this, player, tradePartner
      ensures var d, p, q := old(State()), player, tradePartner;
              if d.traders[p].item == null || d.traders[q].item == null
              then outcome == Broken
                   && State() == Settle(d, p, q, d.traders[p].(state := TRADE_TRANSFER),
                                        d.traders[q].(state := TRADE_TRANSFER))
              else outcome == (if fits then Swapped else Failed) && State() == Settle(d, p, q, IDLE, IDLE)
    {
      Fields(player);
      Fields(tradePartner);
      hide Game.State, Without;
      ghost var d := State();
      var tradeItem1, tradeItem2 := player.tradeItem, tradePartner.tradeItem;
      SetTradeState(player, TRADE_TRANSFER);
      SetTradeState(tradePartner, TRADE_TRANSFER);
      Unregister(tradeItem1);
      Unregister(tradeItem2);
      if tradeItem1 == null || tradeItem2 == null {
        return Broken;
      }
      Reset(player);
      Reset(tradePartner);
      Overwritten(d.traders, player, tradePartner, d.traders[player].(state := TRADE_TRANSFER),
                  d.traders[tradePartner].(state := TRADE_TRANSFER));
      return if fits then Swapped else Failed;
    }

    /** Cancels a trade for both sides; during the transfer itself it does nothing. */
    method InternalCloseTrade(player: Player)
      requires player in players
      requires player.tradePartner != null ==> player.tradePartner in players && player.tradePartner != player
      modifies this, players
      ensures State() == Close(old(State()), player)
    {
      Fields(player);
      var tradePartner := player.tradePartner;
      if tradePartner != null {
        Fields(tradePartner);
      }
      hide Game.State;
      if (tradePartner != null && tradePartner.tradeState == TRADE_TRANSFER) || player.tradeState == TRADE_TRANSFER {
        return;
      }
      CancelOffer(player);
      if tradePartner != null {
        CancelOffer(tradePartner);
      }
    }

    method CancelOffer(player: Player)
      requires player in players
      modifies this, player
      ensures var d := old(State());
              State() == Desk(d.traders[player := IDLE], Without(d.offers, d.traders[player].item))
    {
      Fields(player);
      hide Game.State;
      if player.tradeItem != null {
        Unregister(player.tradeItem);
      }
      Reset(player);
    }
  }

  lemma Overwritten(m: map<Player, Trader>, p: Player, q: Player, tp: Trader, tq: Trader)
    requires p in m && q in m && p != q
    ensures m[p := tp][q := tq][p := IDLE][q := IDLE] == m[p := IDLE][q := IDLE]
  {
  }

  /** Having accepted first makes no difference to how a trade is settled. */
  lemma SettleAfterUpdate(d: Desk, p: Player, q: Player)
    requires p in d.traders && q in d.traders && p != q
    ensures var d' := Update(d, p, d.traders[p].(state := TRADE_ACCEPT));
            && Settle(d', p, q, IDLE, IDLE) == Settle(d, p, q, IDLE, IDLE)
            && forall tp, tq :: Settle(d', p, q, tp, tq) == Settle(d, p, q, tp, tq)
  {
    hide Without;
    var d' := Update(d, p, d.traders[p].(state := TRADE_ACCEPT));
    forall tp, tq ensures Settle(d', p, q, tp, tq) == Settle(d, p, q, tp, tq) {
      assert d'.traders[p := tp] == d.traders[p := tp];
    }
  }

  lemma AcceptIgnored(d: Desk, p: Player, deny: bool, fits: bool)
    requires p in d.traders && d.traders[p].state !in {TRADE_ACKNOWLEDGE, TRADE_INITIATED}
    ensures AcceptOutcome(d, p, deny, fits) == Ignored && Accept(d, p, deny, fits) == d
  {
  }

  lemma AcceptCases(d: Desk, p: Player, deny: bool, fits: bool)
    requires p in d.traders && d.traders[p].state in {TRADE_ACKNOWLEDGE, TRADE_INITIATED}
    requires d.traders[p].partner != null && d.traders[p].partner in d.traders
    ensures var t, q: Player, outcome := d.traders[p], d.traders[p].partner, AcceptOutcome(d, p, deny, fits);
            if d.traders[q].state != TRADE_ACCEPT || deny then
              && outcome == (if d.traders[q].state != TRADE_ACCEPT then Waiting else Denied)
              && Accept(d, p, deny, fits) == Update(d, p, t.(state := TRADE_ACCEPT))
            else if t.item == null || d.traders[q].item == null then
              && outcome == Broken
              && Accept(d, p, deny, fits)
                 == Settle(d, p, q, t.(state := TRADE_TRANSFER), d.traders[q].(state := TRADE_TRANSFER))
            else
              && outcome == (if fits then Swapped else Failed)
              && Accept(d, p, deny, fits) == Settle(d, p, q, IDLE, IDLE)
  {
  }

  lemma PartnerFacts(d: Desk, p: Player)
    requires Valid(d) && p in d.traders && d.traders[p].state != TRADE_NONE
    ensures var q := d.traders[p].partner; q != null && q in d.traders && q != p
  {
  }
}
