/**
 * The pusher of dependent ("slave") orders: every dependant whose master
 * order has closed is either expired (a CANCELLED event to its trade
 * machine), or handed to the dependency handler, and when the handler
 * publishes it, its NN acceptance machine is sent CONTINUE with the NN
 * order id. A failure while handling one dependant is caught and does not
 * affect the others.
 *
 * The handler's decision is an oracle `decide`; the clock's "now" (ms) and
 * the NN configuration cache are parameters of a run.
 */
module SlavePushing {
  import opened Wrappers
  import opened Domain
  import opened TradeRepository
  import opened StateMachines
  import opened Seqs

  /** The NN configuration of a symbol: how many minutes a dependant may wait for its master. */
  datatype NnConfig = NnConfig(maxSlaveDelayM: int)

  /** The instant a dependant expires: its own recording time plus the allowed delay, in ms. */
  function ExpiresAt(recordedOn: int, maxSlaveDelayM: int): (r: int)
    ensures (r - recordedOn) % 60000 == 0 && (r - recordedOn) / 60000 == maxSlaveDelayM
    ensures r >= recordedOn <==> maxSlaveDelayM >= 0
  {
    recordedOn + maxSlaveDelayM * 60000
  }

  /** Not expired exactly while the expiry instant is still strictly in the future. */
  predicate IsExpired(t: Trade, cfg: NnConfig, now: int)
    ensures cfg.maxSlaveDelayM <= 0 && t.recordedOn <= now ==> IsExpired(t, cfg, now)
    ensures IsExpired(t, cfg, now) && cfg.maxSlaveDelayM >= 0 ==> t.recordedOn <= now
  {
    ExpiresAt(t.recordedOn, cfg.maxSlaveDelayM) <= now
  }

  /** Once expired, a dependant stays expired at every later instant. */
  lemma ExpiredStaysExpired(t: Trade, cfg: NnConfig, now: int, later: int)
    requires IsExpired(t, cfg, now) && now <= later
    ensures IsExpired(t, cfg, later)
  {
  }

  /** The dependants the pusher works on: DEPENDS_ON trades whose master is CLOSED. */
  function Dependants(ledger: seq<Trade>): seq<Trade> {
    FindDependantsByMasterStatus(ledger, {DependsOn}, {Closed})
  }

  /** What handling one dependant comes to. */
  datatype SlaveOutcome =
    | NoNnConfig               // no NN configuration: the "No config" exception is caught
    | Expired                  // CANCELLED sent to the trade's machine
    | Waiting                  // the handler did not publish it yet
    | PublishFailed            // the handler threw; caught
    | PublishedWithoutNnOrder  // published, but reading the NN order failed; caught
    | Continued(orderId: int)  // CONTINUE sent to the NN order's acceptance machine

  /**
   * The outcome of handling `t` at `now`, given the configurations and the
   * handler's decision (true: published, false: not yet, Failure: threw).
   */
  function OutcomeOf(t: Trade, now: int, nnConfigs: map<Symbol, NnConfig>, decide: Trade -> Result<bool, string>): (o: SlaveOutcome)
    ensures o == NoNnConfig <==> SymbolOf(t) !in nnConfigs
    ensures o == Expired <==> SymbolOf(t) in nnConfigs && IsExpired(t, nnConfigs[SymbolOf(t)], now)
    ensures o == PublishFailed || o == Waiting || o == PublishedWithoutNnOrder || o.Continued? ==>
              SymbolOf(t) in nnConfigs && !IsExpired(t, nnConfigs[SymbolOf(t)], now)
    ensures o == PublishFailed <==> o != NoNnConfig && o != Expired && decide(t).Failure?
    ensures o.Continued? <==> o != NoNnConfig && o != Expired && decide(t) == Success(true) && t.nnOrder.Some?
    ensures o.Continued? ==> t.nnOrder == Some(o.orderId)
  {
    if SymbolOf(t) !in nnConfigs then NoNnConfig
    else if IsExpired(t, nnConfigs[SymbolOf(t)], now) then Expired
    else match decide(t)
      case Failure(_) => PublishFailed
      case Success(published) =>
        if !published then Waiting
        else if t.nnOrder.None? then PublishedWithoutNnOrder
        else Continued(t.nnOrder.value)
  }

  /** Whether handling reaches the handler: the trade is configured and not expired. */
  predicate ReachesHandler(o: SlaveOutcome) {
    o != NoNnConfig && o != Expired
  }

  /** Everything a run records: trade-machine operations, NN-machine operations and the handler's calls. */
  datatype Effects = Effects(
    cancels: seq<MachineOp<TradeId, TradeEvent>>,
    continues: seq<MachineOp<NnMachineKey, AcceptMessage>>,
    attempts: seq<Trade>)

  const NoEffects := Effects([], [], [])

  /** The effects of `a` followed by those of `b`. */
  function Then(a: Effects, b: Effects): Effects {
    Effects(a.cancels + b.cancels, a.continues + b.continues, a.attempts + b.attempts)
  }

  /** What handling one dependant records. */
  function EffectsOf(t: Trade, now: int, nnConfigs: map<Symbol, NnConfig>, decide: Trade -> Result<bool, string>): (e: Effects)
    ensures e.cancels != [] <==> OutcomeOf(t, now, nnConfigs, decide) == Expired
    ensures e.attempts != [] <==> ReachesHandler(OutcomeOf(t, now, nnConfigs, decide))
    ensures e.continues != [] <==> OutcomeOf(t, now, nnConfigs, decide).Continued?
    ensures e.cancels != [] ==> e.attempts == [] && e.continues == []
    ensures e.cancels != [] ==> e.cancels == Deliver(t.id, TradeEvent.Cancelled)
    ensures OutcomeOf(t, now, nnConfigs, decide).Continued? ==>
              var k := OutcomeOf(t, now, nnConfigs, decide).orderId;
              e.continues == Deliver(NnOpportunity(k), Continue(k))
    ensures e.attempts != [] ==> e.attempts == [t]
    ensures Bracketed(e.cancels) && Bracketed(e.continues)
  {
    var d := Deliver(t.id, TradeEvent.Cancelled);
    assert d[3..] == [];
    match OutcomeOf(t, now, nnConfigs, decide)
    case NoNnConfig => NoEffects
    case Expired => Effects(d, [], [])
    case Continued(k) =>
      var c := Deliver(NnOpportunity(k), Continue(k));
      assert c[3..] == [];
      Effects([], c, [t])
    case _ => Effects([], [], [t])
  }

  /** What handling the dependants `q` in order records. */
  function PushEffects(q: seq<Trade>, now: int, nnConfigs: map<Symbol, NnConfig>, decide: Trade -> Result<bool, string>): Effects {
    if q == [] then NoEffects
    else Then(EffectsOf(q[0], now, nnConfigs, decide), PushEffects(q[1..], now, nnConfigs, decide))
  }

  // ---------------------------------------------------------------------------
  // Properties of a run

  /** Handling is per dependant: a run over `a + b` records the run over `a`, then the run over `b`. */
  lemma {:induction false} PushEffectsConcat(
    a: seq<Trade>, b: seq<Trade>, now: int, nnConfigs: map<Symbol, NnConfig>, decide: Trade -> Result<bool, string>)
    ensures PushEffects(a + b, now, nnConfigs, decide)
         == Then(PushEffects(a, now, nnConfigs, decide), PushEffects(b, now, nnConfigs, decide))
  {
    if a == [] {
      assert a + b == b;
    } else {
      var ab := a + b;
      assert ab[0] == a[0] && ab[1..] == a[1..] + b;
      var head := EffectsOf(a[0], now, nnConfigs, decide);
      PushEffectsConcat(a[1..], b, now, nnConfigs, decide);
      ThenAssociative(head, PushEffects(a[1..], now, nnConfigs, decide), PushEffects(b, now, nnConfigs, decide));
    }
  }

  lemma ThenAssociative(x: Effects, y: Effects, z: Effects)
    ensures Then(x, Then(y, z)) == Then(Then(x, y), z)
  {
    assert x.cancels + (y.cancels + z.cancels) == (x.cancels + y.cancels) + z.cancels;
    assert x.continues + (y.continues + z.continues) == (x.continues + y.continues) + z.continues;
    assert x.attempts + (y.attempts + z.attempts) == (x.attempts + y.attempts) + z.attempts;
  }

  lemma PushEffectsStep(q: seq<Trade>, i: nat, now: int, nnConfigs: map<Symbol, NnConfig>, decide: Trade -> Result<bool, string>)
    requires i < |q|
    ensures PushEffects(q[..i + 1], now, nnConfigs, decide)
         == Then(PushEffects(q[..i], now, nnConfigs, decide), EffectsOf(q[i], now, nnConfigs, decide))
  {
    PushEffectsConcat(q[..i], [q[i]], now, nnConfigs, decide);
    assert q[..i + 1] == q[..i] + [q[i]];
    assert [q[i]][1..] == [];
  }

  /** Both machine logs of a run are sequences of complete checkouts. */
  lemma {:induction false} PushEffectsBracketed(
    q: seq<Trade>, now: int, nnConfigs: map<Symbol, NnConfig>, decide: Trade -> Result<bool, string>)
    ensures Bracketed(PushEffects(q, now, nnConfigs, decide).cancels)
    ensures Bracketed(PushEffects(q, now, nnConfigs, decide).continues)
    ensures Acquisitions(PushEffects(q, now, nnConfigs, decide).cancels) == Releases(PushEffects(q, now, nnConfigs, decide).cancels)
    ensures Acquisitions(PushEffects(q, now, nnConfigs, decide).continues) == Releases(PushEffects(q, now, nnConfigs, decide).continues)
  {
    var e := PushEffects(q, now, nnConfigs, decide);
    if q != [] {
      var head := EffectsOf(q[0], now, nnConfigs, decide);
      PushEffectsBracketed(q[1..], now, nnConfigs, decide);
      BracketedConcat(head.cancels, PushEffects(q[1..], now, nnConfigs, decide).cancels);
      BracketedConcat(head.continues, PushEffects(q[1..], now, nnConfigs, decide).continues);
    }
    BracketedBalances(e.cancels);
    BracketedBalances(e.continues);
  }

  /**
   * The handler sees each dependant as often as it occurs among `q`, provided
   * it is configured and not expired, and no trade otherwise; in particular
   * an expired dependant is never published.
   */
  lemma {:induction false} AttemptsCount(
    q: seq<Trade>, now: int, nnConfigs: map<Symbol, NnConfig>, decide: Trade -> Result<bool, string>, t: Trade)
    ensures multiset(PushEffects(q, now, nnConfigs, decide).attempts)[t]
         == if ReachesHandler(OutcomeOf(t, now, nnConfigs, decide)) then multiset(q)[t] else 0
  {
    if q != [] {
      assert q == [q[0]] + q[1..];
      AttemptsCount(q[1..], now, nnConfigs, decide, t);
    }
  }

  /**
   * A trade machine receives as many CANCELLED events as `q` holds expired
   * dependants with its id; when only `t` carries that id, that is how often
   * `t` occurs, if it is expired, and none otherwise.
   */
  lemma {:induction false} CancelCount(
    q: seq<Trade>, now: int, nnConfigs: map<Symbol, NnConfig>, decide: Trade -> Result<bool, string>, t: Trade)
    requires forall x :: x in q && x.id == t.id ==> x == t
    ensures multiset(PushEffects(q, now, nnConfigs, decide).cancels)[Send(t.id, TradeEvent.Cancelled)]
         == if OutcomeOf(t, now, nnConfigs, decide) == Expired then multiset(q)[t] else 0
  {
    if q != [] {
      var head := EffectsOf(q[0], now, nnConfigs, decide).cancels;
      var rest := PushEffects(q[1..], now, nnConfigs, decide).cancels;
      assert PushEffects(q, now, nnConfigs, decide).cancels == head + rest;
      assert multiset(head + rest) == multiset(head) + multiset(rest);
      assert q == [q[0]] + q[1..];
      assert q[0] in q;
      CancelCount(q[1..], now, nnConfigs, decide, t);
      CancelsOfOne(q[0], now, nnConfigs, decide, t);
      assert multiset(q)[t] == (if q[0] == t then 1 else 0) + multiset(q[1..])[t];
    }
  }

  /** Handling one dependant cancels `t` once if it is `t` and expired, and never otherwise. */
  lemma CancelsOfOne(x: Trade, now: int, nnConfigs: map<Symbol, NnConfig>, decide: Trade -> Result<bool, string>, t: Trade)
    requires x.id == t.id ==> x == t
    ensures multiset(EffectsOf(x, now, nnConfigs, decide).cancels)[Send(t.id, TradeEvent.Cancelled)]
         == if x == t && OutcomeOf(t, now, nnConfigs, decide) == Expired then 1 else 0
  {
    var cancels := EffectsOf(x, now, nnConfigs, decide).cancels;
    if OutcomeOf(x, now, nnConfigs, decide) == Expired {
      assert cancels == [Acquire(x.id), Send(x.id, TradeEvent.Cancelled), Release(x.id)];
    } else {
      assert cancels == [];
    }
  }

  /** Every CONTINUE goes to the machine of the NN order it names, and exactly the published dependants with an NN order get one. */
  lemma {:induction false} ContinuesMatchOrders(
    q: seq<Trade>, now: int, nnConfigs: map<Symbol, NnConfig>, decide: Trade -> Result<bool, string>)
    ensures forall op :: op in PushEffects(q, now, nnConfigs, decide).continues && op.Send? ==>
              op.machine == NnOpportunity(op.event.orderId)
    ensures forall k :: Send(NnOpportunity(k), Continue(k)) in PushEffects(q, now, nnConfigs, decide).continues <==>
              exists x :: x in q && OutcomeOf(x, now, nnConfigs, decide) == Continued(k)
  {
    if q != [] {
      var head := EffectsOf(q[0], now, nnConfigs, decide).continues;
      var rest := PushEffects(q[1..], now, nnConfigs, decide).continues;
      assert PushEffects(q, now, nnConfigs, decide).continues == head + rest;
      ContinuesMatchOrders(q[1..], now, nnConfigs, decide);
      ContinuesOfOne(q[0], now, nnConfigs, decide);
      forall k ensures Send(NnOpportunity(k), Continue(k)) in head + rest <==>
                       exists x :: x in q && OutcomeOf(x, now, nnConfigs, decide) == Continued(k)
      {
        forall x | x in q[1..] ensures x in q {
        }
        if exists x :: x in q && OutcomeOf(x, now, nnConfigs, decide) == Continued(k) {
          var x :| x in q && OutcomeOf(x, now, nnConfigs, decide) == Continued(k);
          if x != q[0] {
            assert x in q[1..];
          }
        }
      }
    }
  }

  /** One dependant's CONTINUE, if any, names the order it goes to, and it has one exactly when it was published with that order. */
  lemma ContinuesOfOne(x: Trade, now: int, nnConfigs: map<Symbol, NnConfig>, decide: Trade -> Result<bool, string>)
    ensures forall op :: op in EffectsOf(x, now, nnConfigs, decide).continues && op.Send? ==>
              op.machine == NnOpportunity(op.event.orderId)
    ensures forall k :: Send(NnOpportunity(k), Continue(k)) in EffectsOf(x, now, nnConfigs, decide).continues <==>
              OutcomeOf(x, now, nnConfigs, decide) == Continued(k)
  {
    var continues := EffectsOf(x, now, nnConfigs, decide).continues;
    if OutcomeOf(x, now, nnConfigs, decide).Continued? {
      var k := OutcomeOf(x, now, nnConfigs, decide).orderId;
      assert continues == [Acquire(NnOpportunity(k)), Send(NnOpportunity(k), Continue(k)), Release(NnOpportunity(k))];
    } else {
      assert continues == [];
    }
  }

  /** Whether handling a dependant ends in CONTINUE to NN order `k`. */
  function ContinuesTo(k: int, now: int, nnConfigs: map<Symbol, NnConfig>, decide: Trade -> Result<bool, string>): Trade -> bool {
    (x: Trade) => OutcomeOf(x, now, nnConfigs, decide) == Continued(k)
  }

  /**
   * NN order `k`'s machine is sent exactly one CONTINUE per dependant of `q`
   * that was published with NN order `k`, and nothing else.
   */
  lemma {:induction false} ContinueCount(
    q: seq<Trade>, now: int, nnConfigs: map<Symbol, NnConfig>, decide: Trade -> Result<bool, string>, k: int)
    ensures multiset(PushEffects(q, now, nnConfigs, decide).continues)[Send(NnOpportunity(k), Continue(k))]
         == |Filter(ContinuesTo(k, now, nnConfigs, decide), q)|
  {
    if q != [] {
      var head := EffectsOf(q[0], now, nnConfigs, decide).continues;
      var rest := PushEffects(q[1..], now, nnConfigs, decide).continues;
      assert PushEffects(q, now, nnConfigs, decide).continues == head + rest;
      assert multiset(head + rest) == multiset(head) + multiset(rest);
      ContinueCount(q[1..], now, nnConfigs, decide, k);
      ContinuesOfOneCount(q[0], now, nnConfigs, decide, k);
      FilterLengthStep(ContinuesTo(k, now, nnConfigs, decide), q);
    }
  }

  /** One dependant sends order `k` one CONTINUE if it was published with that order, none otherwise. */
  lemma ContinuesOfOneCount(x: Trade, now: int, nnConfigs: map<Symbol, NnConfig>, decide: Trade -> Result<bool, string>, k: int)
    ensures multiset(EffectsOf(x, now, nnConfigs, decide).continues)[Send(NnOpportunity(k), Continue(k))]
         == if OutcomeOf(x, now, nnConfigs, decide) == Continued(k) then 1 else 0
  {
    var continues := EffectsOf(x, now, nnConfigs, decide).continues;
    if OutcomeOf(x, now, nnConfigs, decide).Continued? {
      var j := OutcomeOf(x, now, nnConfigs, decide).orderId;
      assert continues == [Acquire(NnOpportunity(j)), Send(NnOpportunity(j), Continue(j)), Release(NnOpportunity(j))];
    } else {
      assert continues == [];
    }
  }

  /**
   * With unique trade ids, a run of the pusher sends exactly one CANCELLED to
   * every expired dependant of a closed master and to no other trade.
   */
  lemma ExpiredCancelledOnce(
    ledger: seq<Trade>, now: int, nnConfigs: map<Symbol, NnConfig>, decide: Trade -> Result<bool, string>, t: Trade)
    requires UniqueIds(ledger) && t in ledger
    ensures multiset(PushEffects(Dependants(ledger), now, nnConfigs, decide).cancels)[Send(t.id, TradeEvent.Cancelled)]
         == if DependantWith(ledger, t, {DependsOn}, {Closed}) && OutcomeOf(t, now, nnConfigs, decide) == Expired then 1 else 0
  {
    var q := Dependants(ledger);
    forall x | x in q && x.id == t.id ensures x == t {
      assert multiset(q)[x] > 0;
      SameIdSameRow(ledger, x, t);
    }
    CancelCount(q, now, nnConfigs, decide, t);
    UniqueIdsOccurOnce(ledger, t);
  }

  /**
   * With unique trade ids, the handler is asked exactly once about every
   * configured, unexpired dependant of a closed master, and never about an
   * expired one.
   */
  lemma HandlerAskedOnce(
    ledger: seq<Trade>, now: int, nnConfigs: map<Symbol, NnConfig>, decide: Trade -> Result<bool, string>, t: Trade)
    requires UniqueIds(ledger) && t in ledger
    ensures multiset(PushEffects(Dependants(ledger), now, nnConfigs, decide).attempts)[t]
         == if DependantWith(ledger, t, {DependsOn}, {Closed}) && ReachesHandler(OutcomeOf(t, now, nnConfigs, decide)) then 1 else 0
  {
    AttemptsCount(Dependants(ledger), now, nnConfigs, decide, t);
    UniqueIdsOccurOnce(ledger, t);
  }

  /** Expiry is inclusive: a dependant is expired at its expiry instant and not a millisecond before. */
  lemma ExpiryBoundary(t: Trade, cfg: NnConfig)
    ensures IsExpired(t, cfg, ExpiresAt(t.recordedOn, cfg.maxSlaveDelayM))
    ensures !IsExpired(t, cfg, ExpiresAt(t.recordedOn, cfg.maxSlaveDelayM) - 1)
  {
  }

  // ---------------------------------------------------------------------------
  // The pusher

  /** The dependency handler as the pusher sees it: a decision per trade, and the calls made. */
  class DependencyHandler {
    const decide: Trade -> Result<bool, string>
    var calls: seq<Trade>

    constructor (decide: Trade -> Result<bool, string>)
      ensures this.decide == decide && calls == []
    {
      this.decide := decide;
      calls := [];
    }

    /** Publishes the dependant if its master's fill allows: true when published; Failure when it throws. */
    method PublishDependentOrderIfPossible(t: Trade) returns (r: Result<bool, string>)
      modifies this
      ensures r == decide(t)
      ensures calls == old(calls) + [t]
    {
      r := decide(t);
      calls := calls + [t];
    }
  }

  class NnSlaveOrderPusher {
    const handler: DependencyHandler
    const tradeMachines: StateMachineService<TradeId, TradeEvent>
    const nnMachines: StateMachineService<NnMachineKey, AcceptMessage>

    constructor (
      handler: DependencyHandler,
      tradeMachines: StateMachineService<TradeId, TradeEvent>,
      nnMachines: StateMachineService<NnMachineKey, AcceptMessage>)
      ensures this.handler == handler && this.tradeMachines == tradeMachines && this.nnMachines == nnMachines
    {
      this.handler := handler;
      this.tradeMachines := tradeMachines;
      this.nnMachines := nnMachines;
    }

    /** Handles every dependant of a closed master, in query order. */
    method PushOrders(ledger: seq<Trade>, now: int, nnConfigs: map<Symbol, NnConfig>)
      modifies handler, tradeMachines, nnMachines
      ensures var e := PushEffects(Dependants(ledger), now, nnConfigs, handler.decide);
        && tradeMachines.log == old(tradeMachines.log) + e.cancels
        && nnMachines.log == old(nnMachines.log) + e.continues
        && handler.calls == old(handler.calls) + e.attempts
    {
      PushAll(Dependants(ledger), now, nnConfigs);
    }

    /** The three logs the pusher writes, read together. */
    function Logged(): Effects
      reads tradeMachines, nnMachines, handler
    {
      Effects(tradeMachines.log, nnMachines.log, handler.calls)
    }

    /** The loop of a run over the dependants `q`. */
    method PushAll(q: seq<Trade>, now: int, nnConfigs: map<Symbol, NnConfig>)
      modifies handler, tradeMachines, nnMachines
      ensures Logged() == Then(old(Logged()), PushEffects(q, now, nnConfigs, handler.decide))
    {
      ghost var base := Logged();
      var i := 0;
      while i < |q|
        invariant 0 <= i <= |q|
        invariant Logged() == Then(base, PushEffects(q[..i], now, nnConfigs, handler.decide))
      {
        ghost var e := PushEffects(q[..i], now, nnConfigs, handler.decide);
        ghost var item := EffectsOf(q[i], now, nnConfigs, handler.decide);
        ghost var before := Logged();
        ghost var outcome := AckAndCreateOrders(q[i], now, nnConfigs);
        assert Logged() == Then(before, item);
        PushEffectsStep(q, i, now, nnConfigs, handler.decide);
        ThenAssociative(base, e, item);
        i := i + 1;
      }
      assert q[..i] == q;
    }

    /**
     * Handles one dependant: expires it, or asks the handler to publish it
     * and on success sends CONTINUE, carrying the NN order id, to the NN
     * order's acceptance machine. Every failure on the way is caught.
     */
    method AckAndCreateOrders(t: Trade, now: int, nnConfigs: map<Symbol, NnConfig>) returns (ghost outcome: SlaveOutcome)
      modifies handler, tradeMachines, nnMachines
      ensures outcome == OutcomeOf(t, now, nnConfigs, handler.decide)
      ensures tradeMachines.log == old(tradeMachines.log) + EffectsOf(t, now, nnConfigs, handler.decide).cancels
      ensures nnMachines.log == old(nnMachines.log) + EffectsOf(t, now, nnConfigs, handler.decide).continues
      ensures handler.calls == old(handler.calls) + EffectsOf(t, now, nnConfigs, handler.decide).attempts
    {
      var expired := CheckForExpirationAndExpireIfNeeded(t, now, nnConfigs);
      if expired.Failure? {
        return NoNnConfig;
      }
      if expired.value {
        return Expired;
      }
      var published := handler.PublishDependentOrderIfPossible(t);
      if published.Failure? {
        return PublishFailed;
      }
      if !published.value {
        return Waiting;
      }
      if t.nnOrder.None? {
        return PublishedWithoutNnOrder;
      }
      var k := t.nnOrder.value;
      nnMachines.AcquireStateMachine(NnOpportunity(k));
      nnMachines.SendEvent(NnOpportunity(k), Continue(k));
      nnMachines.ReleaseStateMachine(NnOpportunity(k));
      return Continued(k);
    }

    /**
     * Fails with "No config" when the trade's symbol has no NN configuration;
     * otherwise reports whether the trade is expired, and if so sends
     * CANCELLED to its machine under checkout.
     */
    method CheckForExpirationAndExpireIfNeeded(t: Trade, now: int, nnConfigs: map<Symbol, NnConfig>) returns (r: Result<bool, string>)
      modifies tradeMachines
      ensures r.Failure? <==> SymbolOf(t) !in nnConfigs
      ensures r.Failure? ==> r.error == "No config"
      ensures r.Success? ==> (r.value <==> IsExpired(t, nnConfigs[SymbolOf(t)], now))
      ensures tradeMachines.log == old(tradeMachines.log) + (if r == Success(true) then Deliver(t.id, TradeEvent.Cancelled) else [])
    {
      if SymbolOf(t) !in nnConfigs {
        return Failure("No config");
      }
      var cfg := nnConfigs[SymbolOf(t)];
      if ExpiresAt(t.recordedOn, cfg.maxSlaveDelayM) > now {
        return Success(false);
      }
      tradeMachines.AcquireStateMachine(t.id);
      tradeMachines.SendEvent(t.id, TradeEvent.Cancelled);
      tradeMachines.ReleaseStateMachine(t.id);
      return Success(true);
    }
  }
}
