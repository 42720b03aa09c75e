/** The ownership-escrow gate of a token: the lowest action index among its give-ownership offers whose latest
    status is open, cancelling or expiring. Re-derived for the affected tickers only, after a block that
    touches an offer table and after every rollback that removes actions.
 */
module EscrowGate {

  import opened Hashing

  datatype Kind = Orders | Swaps | Dispensers

  datatype Status = IsOpen | IsCancelling | IsExpiring | IsClosed(code: nat)

  datatype Offer = Offer(kind: Kind, tick: nat, givesOwnership: bool)

  /** An append-only status row: one action may move several offers. */
  datatype StatusRow = StatusRow(kind: Kind, offer: nat, action: nat, status: Status)

  datatype Market = Market(offers: map<nat, Offer>, statuses: set<StatusRow>)

  /** `MAX(x.action_index)` over the offer's status rows selects this one. */
  predicate Latest(m: Market, st: StatusRow) {
    st in m.statuses && forall x <- m.statuses :: x.kind == st.kind && x.offer == st.offer ==> x.action <= st.action
  }

  predicate Escrowing(status: Status) {
    status == IsOpen || status == IsCancelling || status == IsExpiring
  }

  /** The offer holds the ticker's ownership in escrow. */
  predicate Holds(m: Market, action: nat, tick: nat) {
    && action in m.offers && m.offers[action].tick == tick && m.offers[action].givesOwnership
    && exists st ::
         && st in m.statuses && st.kind == m.offers[action].kind && st.offer == action
         && Latest(m, st) && Escrowing(st.status)
  }

  /** Every status row of the offer was written by an earlier action. */
  ghost predicate Newest(m: Market, offer: nat, action: nat) {
    offer in m.offers &&
    forall x <- m.statuses :: x.kind == m.offers[offer].kind && x.offer == offer ==> x.action < action
  }

  /** The newest status row alone decides: after a status row written by a later action than all of the offer's,
      the offer holds its ticker if and only if it gives ownership and that status is open, cancelling or
      expiring. */
  lemma NewestStatusDecides(m: Market, offer: nat, action: nat, status: Status)
    requires Newest(m, offer, action)
    ensures var o := m.offers[offer];
            var after := m.(statuses := m.statuses + {StatusRow(o.kind, offer, action, status)});
            Holds(after, offer, o.tick) <==> o.givesOwnership && status in {IsOpen, IsCancelling, IsExpiring}
  {
    var o := m.offers[offer];
    var row := StatusRow(o.kind, offer, action, status);
    var after := m.(statuses := m.statuses + {row});
    assert Latest(after, row);
  }

  /** An offer with no status row holds nothing, and none holds another ticker than its own. */
  lemma NoStatusHoldsNothing(m: Market, offer: nat, tick: nat)
    requires offer !in m.offers || m.offers[offer].tick != tick
          || forall x <- m.statuses :: x.kind == m.offers[offer].kind ==> x.offer != offer
    ensures !Holds(m, offer, tick)
  {
  }

  /** A status row of one offer changes no other offer's answer: rows of another kind under the same action
      index included. */
  lemma OtherOffersKeep(m: Market, row: StatusRow, offer: nat, tick: nat)
    requires offer in m.offers && !(row.offer == offer && row.kind == m.offers[offer].kind)
    ensures Holds(m.(statuses := m.statuses + {row}), offer, tick) <==> Holds(m, offer, tick)
  {
    var after := m.(statuses := m.statuses + {row});
    if Holds(m, offer, tick) {
      var st :| st in m.statuses && st.kind == m.offers[offer].kind && st.offer == offer
                && Latest(m, st) && Escrowing(st.status);
      assert Latest(after, st);
    }
    if Holds(after, offer, tick) {
      var st :| st in after.statuses && st.kind == m.offers[offer].kind && st.offer == offer
                && Latest(after, st) && Escrowing(st.status);
      assert Latest(m, st);
    }
  }

  ghost predicate IsGate(m: Market, tick: nat, gate: Option<nat>) {
    match gate
    case None => forall a <- m.offers :: !Holds(m, a, tick)
    case Some(g) => Holds(m, g, tick) && forall a <- m.offers :: Holds(m, a, tick) ==> g <= a
  }

  lemma GateUnique(m: Market, tick: nat, g: Option<nat>, h: Option<nat>)
    requires IsGate(m, tick, g) && IsGate(m, tick, h)
    ensures g == h
  {
  }

  /** Every token, touched or not, carries its gate. */
  ghost predicate Derived(m: Market, tokens: map<nat, Option<nat>>) {
    forall t <- tokens :: IsGate(m, t, tokens[t])
  }

  /** The gates are a function of the offers and statuses: two derived token tables agree. */
  lemma DerivedUnique(m: Market, a: map<nat, Option<nat>>, b: map<nat, Option<nat>>)
    requires Derived(m, a) && Derived(m, b) && a.Keys == b.Keys
    ensures a == b
  {
    forall t | t in a
      ensures a[t] == b[t]
    {
      GateUnique(m, t, a[t], b[t]);
    }
  }

  /** `escrowOpenOfferSql`: the lowest holding offer of one ticker. */
  method LowestHolder(m: Market, tick: nat) returns (gate: Option<nat>)
    ensures IsGate(m, tick, gate)
  {
    gate := None;
    var left := m.offers.Keys;
    while left != {}
      invariant left <= m.offers.Keys
      invariant gate.Some? ==> Holds(m, gate.value, tick)
      invariant forall a <- m.offers :: a !in left && Holds(m, a, tick) ==> gate.Some? && gate.value <= a
    {
      var a :| a in left;
      if Holds(m, a, tick) && (gate.None? || a < gate.value) {
        gate := Some(a);
      }
      left := left - {a};
    }
  }

  /** `escrowAffectedTickersSql`: tickers with a gate set, and tickers with a holding offer. */
  function AffectedTickers(m: Market, tokens: map<nat, Option<nat>>): (affected: set<nat>) {
    (set t | t in tokens && tokens[t].Some?) +
    (set a | a in m.offers && Holds(m, a, m.offers[a].tick) :: m.offers[a].tick)
  }

  function Holders(m: Market, tick: nat): set<nat> {
    set a | a in m.offers && Holds(m, a, tick)
  }

  /** The least element of a finite set. */
  ghost function Least(s: set<nat>): (l: Option<nat>)
    ensures l.None? <==> s == {}
    ensures l.Some? ==> l.value in s && forall x <- s :: l.value <= x
  {
    if s == {} then None
    else
      var x :| x in s;
      var rest := Least(s - {x});
      assert forall y <- s :: y == x || y in s - {x};
      if rest.Some? && rest.value < x then rest else Some(x)
  }

  lemma LeastIsGate(m: Market, tick: nat)
    ensures IsGate(m, tick, Least(Holders(m, tick)))
  {
    var l := Least(Holders(m, tick));
    forall a | a in m.offers
      ensures Holds(m, a, tick) ==> l.Some? && l.value <= a
    {
      assert Holds(m, a, tick) ==> a in Holders(m, tick);
    }
  }

  /** The scoped pass: each affected ticker gets its lowest holder, every other token keeps what it has. */
  ghost function Rederived(m: Market, tokens: map<nat, Option<nat>>): map<nat, Option<nat>> {
    map t | t in tokens :: if t in AffectedTickers(m, tokens) then Least(Holders(m, t)) else tokens[t]
  }

  /** The tickers outside the affected set are exactly those with no gate and no holder. */
  lemma UnaffectedIsClear(m: Market, tokens: map<nat, Option<nat>>, t: nat)
    requires t in tokens
    ensures t !in AffectedTickers(m, tokens) <==> tokens[t] == None && IsGate(m, t, None)
  {
    forall a | a in m.offers
      ensures Holds(m, a, t) ==> t in AffectedTickers(m, tokens)
    {
    }
  }

  /** Whatever the tokens held before, the scoped pass leaves every token its gate: it equals the full pass. */
  lemma RederivedIsDerived(m: Market, tokens: map<nat, Option<nat>>)
    ensures Derived(m, Rederived(m, tokens))
  {
    forall t | t in tokens
      ensures IsGate(m, t, Rederived(m, tokens)[t])
    {
      if t in AffectedTickers(m, tokens) {
        LeastIsGate(m, t);
      } else {
        UnaffectedIsClear(m, tokens, t);
      }
    }
  }

  lemma RederivedTwice(m: Market, tokens: map<nat, Option<nat>>)
    ensures Rederived(m, Rederived(m, tokens)) == Rederived(m, tokens)
    ensures Derived(m, tokens) ==> Rederived(m, tokens) == tokens
  {
    var once := Rederived(m, tokens);
    RederivedIsDerived(m, tokens);
    RederivedIsDerived(m, once);
    DerivedUnique(m, Rederived(m, once), once);
    if Derived(m, tokens) {
      DerivedUnique(m, once, tokens);
    }
  }

  // ---------------------------------------------------------------------------
  // Runs of applied blocks and rollbacks
  // ---------------------------------------------------------------------------

  datatype Table = OfferTable(kind: Kind) | StatusTable(kind: Kind) | TokenTable | OtherTable(name: nat)

  /** What a block brings: the tables its data map names, new offers, statuses and tokens, and the whole token
      rows its updated-rows channel carries. */
  datatype Payload = Payload(tables: set<Table>, offers: map<nat, Offer>, statuses: set<StatusRow>,
                             tokens: map<nat, Option<nat>>, carried: map<nat, Option<nat>>)

  predicate Triggers(t: Table) {
    !t.OtherTable?
  }

  /** Rows arrive under their own table's name. */
  ghost predicate WellFormed(p: Payload) {
    && (forall a <- p.offers :: OfferTable(p.offers[a].kind) in p.tables)
    && (forall st <- p.statuses :: StatusTable(st.kind) in p.tables)
    && (p.tokens != map[] ==> TokenTable in p.tables)
  }

  ghost predicate Touches(p: Payload) {
    exists t <- p.tables :: Triggers(t)
  }

  /** The replica's tables: the market and the gate of each token. */
  datatype Tables = Tables(market: Market, tokens: map<nat, Option<nat>>)

  /** One block: inserts, then carried rows, then the scoped pass if a trigger table is named. */
  ghost function AfterBlock(r: Tables, p: Payload): Tables {
    var m := Market(r.market.offers + p.offers, r.market.statuses + p.statuses);
    var carried := r.tokens + p.tokens + p.carried;
    Tables(m, if Touches(p) then Rederived(m, carried) else carried)
  }

  /** One rollback: deletes by action index, then the scoped pass, when the orphaned range held an action.
      `issued` is each token's own action index. */
  ghost function AfterRollback(r: Tables, first: Option<nat>, issued: map<nat, nat>): Tables
    requires r.tokens.Keys <= issued.Keys
  {
    if first.None? then r
    else
      var m := Market(map a | a in r.market.offers && a < first.value :: r.market.offers[a],
                      set st | st in r.market.statuses && st.action < first.value);
      Tables(m, Rederived(m, map t | t in r.tokens && issued[t] < first.value :: r.tokens[t]))
  }

  lemma RowsTouch(p: Payload)
    requires WellFormed(p)
    ensures p.offers != map[] || p.statuses != {} || p.tokens != map[] ==> Touches(p)
  {
    if p.tokens != map[] {
      assert Triggers(TokenTable);
    } else if p.statuses != {} {
      var st :| st in p.statuses;
      assert Triggers(StatusTable(st.kind));
    } else if p.offers != map[] {
      var a :| a in p.offers;
      assert Triggers(OfferTable(p.offers[a].kind));
    }
  }

  /** A block that names no offer, status or token table takes its token rows as they come. */
  lemma UntriggeredTakesRows(r: Tables, p: Payload)
    requires forall t <- p.tables :: t.OtherTable?
    ensures AfterBlock(r, p).tokens == r.tokens + p.tokens + p.carried
  {
  }

  /** A block that names no trigger table leaves the gates right exactly when every token row it carries has
      the gate the replica would derive; one that does always leaves them right. */
  lemma ApplyKeepsGates(r: Tables, p: Payload)
    requires Derived(r.market, r.tokens) && WellFormed(p)
    ensures Derived(AfterBlock(r, p).market, AfterBlock(r, p).tokens) <==>
              Touches(p) || forall t <- p.carried :: IsGate(r.market, t, p.carried[t])
  {
    var after := AfterBlock(r, p);
    if Touches(p) {
      RederivedIsDerived(after.market, r.tokens + p.tokens + p.carried);
    } else {
      RowsTouch(p);
      assert after.market == r.market && after.tokens == r.tokens + p.carried;
      if Derived(after.market, after.tokens) {
        forall t | t in p.carried
          ensures IsGate(r.market, t, p.carried[t])
        {
          assert after.tokens[t] == p.carried[t];
        }
      }
    }
  }

  lemma RollbackKeepsGates(r: Tables, first: Option<nat>, issued: map<nat, nat>)
    requires Derived(r.market, r.tokens) && r.tokens.Keys <= issued.Keys
    ensures Derived(AfterRollback(r, first, issued).market, AfterRollback(r, first, issued).tokens)
  {
    if first.Some? {
      var m := AfterRollback(r, first, issued).market;
      RederivedIsDerived(m, map t | t in r.tokens && issued[t] < first.value :: r.tokens[t]);
    }
  }

  datatype Move =
    | Block(p: Payload)
    | Rollback(first: Option<nat>, issued: map<nat, nat>)

  ghost predicate Allowed(r: Tables, move: Move) {
    match move
    case Block(p) => WellFormed(p) && (!Touches(p) ==> forall t <- p.carried :: IsGate(r.market, t, p.carried[t]))
    case Rollback(_, issued) => r.tokens.Keys <= issued.Keys
  }

  ghost function After(r: Tables, move: Move): Tables
    requires Allowed(r, move)
  {
    match move
    case Block(p) => AfterBlock(r, p)
    case Rollback(first, issued) => AfterRollback(r, first, issued)
  }

  /** Every token carries its gate at every point of every run of blocks and rollbacks that starts so, when
      token rows carried by blocks that touch no offer agree with the derive. */
  lemma {:induction false} GatesAlwaysDerived(tables: seq<Tables>, moves: seq<Move>, i: nat)
    requires |tables| == |moves| + 1 && i <= |moves|
    requires Derived(tables[0].market, tables[0].tokens)
    requires forall k: nat :: k < |moves| ==>
             Allowed(tables[k], moves[k]) && tables[k + 1] == After(tables[k], moves[k])
    ensures Derived(tables[i].market, tables[i].tokens)
  {
    if i > 0 {
      var r, move := tables[i - 1], moves[i - 1];
      GatesAlwaysDerived(tables, moves, i - 1);
      assert tables[i - 1 + 1] == After(r, move);
      match move
      case Block(p) => ApplyKeepsGates(r, p);
      case Rollback(first, issued) => RollbackKeepsGates(r, first, issued);
    }
  }

  class Replica {
    var market: Market
    var tokens: map<nat, Option<nat>>

    constructor (market: Market, tokens: map<nat, Option<nat>>)
      ensures this.market == market && this.tokens == tokens
    {
      this.market, this.tokens := market, tokens;
    }

    /** The loop over the affected tickers is the scoped pass, and so leaves every token its gate. */
    method RederiveEscrowGate()
      modifies this`tokens
      ensures tokens == Rederived(market, old(tokens))
      ensures Derived(market, tokens)
    {
      var left := AffectedTickers(market, tokens);
      ghost var all := left;
      while left != {}
        invariant left <= all && tokens.Keys == old(tokens.Keys)
        invariant forall t <- tokens :: t !in all || t in left ==> tokens[t] == old(tokens)[t]
        invariant forall t <- tokens :: t in all && t !in left ==> IsGate(market, t, tokens[t])
      {
        var t :| t in left;
        var gate := LowestHolder(market, t);
        if t in tokens {
          tokens := tokens[t := gate];
        }
        left := left - {t};
      }
      forall t | t in tokens && t !in all
        ensures IsGate(market, t, tokens[t])
      {
        UnaffectedIsClear(market, old(tokens), t);
      }
      RederivedIsDerived(market, old(tokens));
      DerivedUnique(market, tokens, Rederived(market, old(tokens)));
    }

    /** Apply one block's rows, then its carried token rows, then derive if a trigger table is named. */
    method ApplyBlock(p: Payload)
      modifies this
      ensures Tables(market, tokens) == AfterBlock(Tables(old(market), old(tokens)), p)
    {
      market := Market(market.offers + p.offers, market.statuses + p.statuses);
      tokens := tokens + p.tokens + p.carried;
      if exists t :: t in p.tables && Triggers(t) {
        RederiveEscrowGate();
      }
    }

    /** Delete by action index, then derive, when the orphaned range holds an action. */
    method RollBack(first: Option<nat>, issued: map<nat, nat>)
      requires tokens.Keys <= issued.Keys
      modifies this
      ensures Tables(market, tokens) == AfterRollback(Tables(old(market), old(tokens)), first, issued)
    {
      if first.Some? {
        var f := first.value;
        ghost var was := Tables(market, tokens);
        market := Market(map a | a in market.offers && a < f :: market.offers[a],
                         set st | st in market.statuses && st.action < f);
        tokens := map t | t in tokens && issued[t] < f :: tokens[t];
        ghost var kept := map t | t in was.tokens && issued[t] < f :: was.tokens[t];
        assert tokens == kept;
        assert market == AfterRollback(was, first, issued).market;
        RederiveEscrowGate();
      }
    }
  }
}
