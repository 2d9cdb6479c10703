/**
 * The three reconciliation jobs that repair the local belief about orders:
 *   - bulk refresh: one "list open orders" command per stale symbol;
 *   - stuck recheck: "get order" commands for stale orders, at most a
 *     configured number per client;
 *   - timeout sweep: a TIMEOUT event to every stale UNKNOWN trade.
 * The ledger snapshot and the clock's "now" (ms) are parameters of each run;
 * the commander and the trade machines record what the jobs emit.
 */
module Reconciler {
  import opened Domain
  import opened Seqs
  import opened TradeRepository
  import opened Gateway
  import opened StateMachines
  import opened Shuffling

  /** UPDATE_ELIGIBLE: the statuses the polling jobs refresh. */
  const UpdateEligible: set<TradeStatus> := {Unknown, Opened}

  /** The list-open command for a symbol: client name and both currency codes copied. */
  function ListOpenOf(s: Symbol): Command {
    ListOpen(s.client, s.from, s.to)
  }

  /** The get-order command for a trade: its client name and venue-assigned id. */
  function GetOrderOf(t: Trade): Command {
    GetOrder(t.client, t.assignedId)
  }

  /** Whether a command is a get-order addressed to `client`. */
  function GetOrderTo(client: string): Command -> bool {
    (c: Command) => c.GetOrder? && c.clientName == client
  }

  /** The get-order commands of `cmds` addressed to `client`. */
  function GetOrdersFor(cmds: seq<Command>, client: string): seq<Command> {
    Filter(GetOrderTo(client), cmds)
  }

  /** Whether a trade belongs to `client`. */
  function OwnedBy(client: string): Trade -> bool {
    (t: Trade) => t.client == client
  }

  /** The trades of `orders` belonging to `client`, in order (one group of the grouping by client name). */
  function ClientTrades(orders: seq<Trade>, client: string): seq<Trade> {
    Filter(OwnedBy(client), orders)
  }

  /** The grouping of `orders` by client name. */
  function GroupByClient(orders: seq<Trade>): (groups: map<string, seq<Trade>>)
    ensures forall t :: t in orders ==> t.client in groups
    ensures forall c :: c in groups ==> groups[c] == ClientTrades(orders, c)
    ensures forall c :: c in groups ==> exists t :: t in orders && t.client == c
  {
    map c | c in (set t | t in orders :: t.client) :: ClientTrades(orders, c)
  }

  /** A client without a group has no trades among `orders`. */
  lemma NoGroupNoTrades(orders: seq<Trade>, groups: map<string, seq<Trade>>, client: string)
    requires forall t :: t in orders ==> t.client in groups
    requires client !in groups
    ensures ClientTrades(orders, client) == []
  {
    forall i | 0 <= i < |orders| ensures orders[i].client != client {
      assert orders[i] in orders;
    }
    FilterDropsAll(OwnedBy(client), orders);
  }

  // ---------------------------------------------------------------------------
  // What each job selects

  /** The symbols the bulk refresh covers: updatable trades of enabled clients untouched for `bulkUpdateMS`. */
  function BulkSymbols(ledger: seq<Trade>, now: int, bulkUpdateMS: int): set<Symbol> {
    FindSymbols(ledger, UpdateEligible, now - bulkUpdateMS, true)
  }

  /** The orders the stuck recheck considers: updatable trades of enabled clients untouched for `stuckUpdateMS`. */
  function StuckCandidates(ledger: seq<Trade>, now: int, stuckUpdateMS: int): seq<Trade> {
    FindByStatusInAndStatusUpdatedBefore(ledger, UpdateEligible, now - stuckUpdateMS, true)
  }

  /** The status-update time before which an UNKNOWN trade is timed out: `orderTimeoutS` seconds before now. */
  function TimeoutCutoff(now: int, orderTimeoutS: int): int {
    now - orderTimeoutS * 1000
  }

  /** The trades the timeout sweep hits: UNKNOWN trades of enabled clients untouched for `orderTimeoutS` seconds. */
  function TimeoutCandidates(ledger: seq<Trade>, now: int, orderTimeoutS: int): seq<Trade> {
    FindByStatusInAndStatusUpdatedBefore(ledger, {Unknown}, TimeoutCutoff(now, orderTimeoutS), true)
  }

  /** What the stuck recheck owes one client: the right number of its orders, each a distinct one of them. */
  ghost predicate ServedClient(emitted: seq<Command>, orders: seq<Trade>, client: string, cap: nat) {
    && |GetOrdersFor(emitted, client)| == Min(cap, |ClientTrades(orders, client)|)
    && multiset(GetOrdersFor(emitted, client)) <= multiset(Map(GetOrderOf, ClientTrades(orders, client)))
  }

  /** A client's batch: get-order commands for the first `cap` orders of the shuffled `picked`. */
  ghost predicate AsksFirst(batch: seq<Command>, picked: seq<Trade>, cap: nat) {
    batch == Map(GetOrderOf, picked[..Min(cap, |picked|)])
  }

  /** The recheck sends get-order commands only. */
  ghost predicate OnlyGetOrders(cmds: seq<Command>) {
    forall c :: c in cmds ==> c.GetOrder?
  }

  /** Progress of the stuck recheck: the clients in `done` are served, the rest have been sent nothing. */
  ghost predicate ServedSoFar(emitted: seq<Command>, orders: seq<Trade>, cap: nat, done: set<string>) {
    && (forall c :: c !in done ==> GetOrdersFor(emitted, c) == [])
    && (forall c :: c in done ==> ServedClient(emitted, orders, c, cap))
  }

  // ---------------------------------------------------------------------------
  // The timeout sweep's events

  /** The machine log of the timeout sweep over `due`: one TIMEOUT under checkout per trade, in order. */
  function TimeoutOps(due: seq<Trade>): seq<MachineOp<TradeId, TradeEvent>> {
    if due == [] then [] else Deliver(due[0].id, Timeout) + TimeoutOps(due[1..])
  }

  /** Extending the swept prefix by one trade appends its checkout. */
  lemma TimeoutOpsStep(due: seq<Trade>, i: nat)
    requires i < |due|
    ensures TimeoutOps(due[..i + 1]) == TimeoutOps(due[..i]) + Deliver(due[i].id, Timeout)
  {
    TimeoutOpsConcat(due[..i], [due[i]]);
    assert due[..i + 1] == due[..i] + [due[i]];
    assert [due[i]][1..] == [];
  }

  lemma {:induction false} TimeoutOpsConcat(a: seq<Trade>, b: seq<Trade>)
    ensures TimeoutOps(a + b) == TimeoutOps(a) + TimeoutOps(b)
  {
    if a == [] {
      assert a + b == b;
    } else {
      assert (a + b)[1..] == a[1..] + b;
      TimeoutOpsConcat(a[1..], b);
    }
  }

  /** The sweep's log is a sequence of complete checkouts, so acquisitions and releases balance. */
  lemma {:induction false} TimeoutOpsBracketed(due: seq<Trade>)
    ensures Bracketed(TimeoutOps(due))
    ensures Acquisitions(TimeoutOps(due)) == Releases(TimeoutOps(due))
  {
    if due != [] {
      TimeoutOpsBracketed(due[1..]);
      var d := Deliver(due[0].id, Timeout);
      assert d[3..] == [];
      assert Bracketed(d);
      BracketedConcat(d, TimeoutOps(due[1..]));
    }
    BracketedBalances(TimeoutOps(due));
  }

  /** The sweep sends a machine as many TIMEOUTs as `due` holds trades with its id, and no other event. */
  lemma {:induction false} TimeoutSendCount(due: seq<Trade>, id: TradeId)
    ensures multiset(TimeoutOps(due))[Send(id, Timeout)] == IdCount(due, id)
    ensures multiset(TimeoutOps(due))[Send(id, TradeEvent.Cancelled)] == 0
  {
    if due != [] {
      TimeoutSendCount(due[1..], id);
    }
  }

  /**
   * With unique trade ids, the sweep sends exactly one TIMEOUT to each UNKNOWN
   * trade of an enabled client whose status is at least `orderTimeoutS`
   * seconds old, and none to any other trade.
   */
  lemma TimeoutExactlyOnce(ledger: seq<Trade>, now: int, orderTimeoutS: int, t: Trade)
    requires UniqueIds(ledger) && t in ledger
    ensures multiset(TimeoutOps(TimeoutCandidates(ledger, now, orderTimeoutS)))[Send(t.id, Timeout)]
         == if t.status == Unknown && t.clientEnabled && t.statusUpdated <= TimeoutCutoff(now, orderTimeoutS) then 1 else 0
  {
    TimeoutSendCount(TimeoutCandidates(ledger, now, orderTimeoutS), t.id);
    TimeoutDueOnce(ledger, now, orderTimeoutS, t);
  }

  /** The sweep's query holds each timed-out trade's id once and no other row's id. */
  lemma TimeoutDueOnce(ledger: seq<Trade>, now: int, orderTimeoutS: int, t: Trade)
    requires UniqueIds(ledger) && t in ledger
    ensures IdCount(TimeoutCandidates(ledger, now, orderTimeoutS), t.id)
         == if t.status == Unknown && t.clientEnabled && t.statusUpdated <= TimeoutCutoff(now, orderTimeoutS) then 1 else 0
  {
    StaleQueryReturnsOnce(ledger, {Unknown}, TimeoutCutoff(now, orderTimeoutS), true, t);
  }

  /** An OPENED trade is never timed out. */
  lemma OpenedNeverTimedOut(ledger: seq<Trade>, now: int, orderTimeoutS: int, t: Trade)
    requires UniqueIds(ledger) && t in ledger && t.status == Opened
    ensures Send(t.id, Timeout) !in TimeoutOps(TimeoutCandidates(ledger, now, orderTimeoutS))
  {
    TimeoutExactlyOnce(ledger, now, orderTimeoutS, t);
  }

  /** A machine id that no ledger row carries receives nothing. */
  lemma TimeoutNothingToStrangers(ledger: seq<Trade>, now: int, orderTimeoutS: int, id: TradeId)
    requires forall x :: x in ledger ==> x.id != id
    ensures Send(id, Timeout) !in TimeoutOps(TimeoutCandidates(ledger, now, orderTimeoutS))
  {
    var due := TimeoutCandidates(ledger, now, orderTimeoutS);
    TimeoutSendCount(due, id);
    forall x | x in due ensures x.id != id {
      assert multiset(due)[x] > 0;
    }
    IdCountAbsent(due, id);
  }

  lemma {:induction false} IdCountAbsent(xs: seq<Trade>, id: TradeId)
    requires forall x :: x in xs ==> x.id != id
    ensures IdCount(xs, id) == 0
  {
    if xs != [] {
      IdCountAbsent(xs[1..], id);
    }
  }

  // ---------------------------------------------------------------------------
  // The jobs

  class OrderUpdater {
    const commander: Commander
    const tradeMachines: StateMachineService<TradeId, TradeEvent>
    const maxToCheckStuckPerClient: nat
    const orderTimeoutS: int
    const bulkUpdateMS: int
    const stuckUpdateMS: int

    /** The job intervals arrive in seconds and are kept in milliseconds. */
    constructor (
      commander: Commander, tradeMachines: StateMachineService<TradeId, TradeEvent>,
      maxToCheckStuckPerClient: nat, orderTimeoutS: int, bulkUpdateStatusS: int, stuckUpdateStatusS: int)
      ensures this.commander == commander && this.tradeMachines == tradeMachines
      ensures this.maxToCheckStuckPerClient == maxToCheckStuckPerClient
      ensures this.orderTimeoutS == orderTimeoutS
      ensures bulkUpdateMS == bulkUpdateStatusS * 1000 && stuckUpdateMS == stuckUpdateStatusS * 1000
    {
      this.commander := commander;
      this.tradeMachines := tradeMachines;
      this.maxToCheckStuckPerClient := maxToCheckStuckPerClient;
      this.orderTimeoutS := orderTimeoutS;
      this.bulkUpdateMS := bulkUpdateStatusS * 1000;
      this.stuckUpdateMS := stuckUpdateStatusS * 1000;
    }

    /**
     * Sends one list-open command per stale symbol, in shuffled order, and
     * nothing else; no machine is touched.
     */
    method BulkUpdateOrderStatus(ledger: seq<Trade>, now: int) returns (ghost emitted: seq<Command>)
      modifies commander
      ensures commander.sent == old(commander.sent) + emitted
      ensures tradeMachines.log == old(tradeMachines.log)
      ensures |emitted| == |BulkSymbols(ledger, now, bulkUpdateMS)|
      ensures forall s :: multiset(emitted)[ListOpenOf(s)] == if s in BulkSymbols(ledger, now, bulkUpdateMS) then 1 else 0
      ensures forall c :: c in emitted ==> c.ListOpen?
    {
      var symbolSet := BulkSymbols(ledger, now, bulkUpdateMS);
      var symbols := ListOf(symbolSet);
      var arr := ArrayOf(symbols);
      Shuffle(arr);
      emitted := SendListOpen(arr);
      ListOpenOnce(arr[..], symbolSet);
    }

    /** One list-open command per symbol of `arr`, in array order. */
    method SendListOpen(arr: array<Symbol>) returns (ghost emitted: seq<Command>)
      modifies commander
      ensures emitted == Map(ListOpenOf, arr[..])
      ensures commander.sent == old(commander.sent) + emitted
    {
      ghost var symbols := arr[..];
      emitted := [];
      var i := 0;
      while i < arr.Length
        invariant 0 <= i <= arr.Length
        invariant arr[..] == symbols
        invariant emitted == Map(ListOpenOf, symbols[..i])
        invariant commander.sent == old(commander.sent) + emitted
      {
        var sym := arr[i];
        commander.ListOpenOrders(sym.client, sym.from, sym.to);
        MapConcat(ListOpenOf, symbols[..i], [sym]);
        assert symbols[..i + 1] == symbols[..i] + [sym];
        emitted := emitted + [ListOpenOf(sym)];
        i := i + 1;
      }
      assert symbols[..i] == symbols;
    }

    /**
     * For each client with stale orders, in an order left open: shuffles the
     * client's orders and sends a get-order command for the first
     * `maxToCheckStuckPerClient` of them. No machine is touched.
     */
    method StuckUpdateOrderStatus(ledger: seq<Trade>, now: int) returns (ghost emitted: seq<Command>)
      modifies commander
      ensures commander.sent == old(commander.sent) + emitted
      ensures tradeMachines.log == old(tradeMachines.log)
      ensures forall c :: c in emitted ==> c.GetOrder?
      ensures forall client :: ServedClient(emitted, StuckCandidates(ledger, now, stuckUpdateMS), client, maxToCheckStuckPerClient)
    {
      var orders := StuckCandidates(ledger, now, stuckUpdateMS);
      var groups := GroupByClient(orders);
      emitted := CheckStuck(orders, groups);
    }

    /** The stuck recheck over its selected orders, grouped by client. */
    method CheckStuck(orders: seq<Trade>, groups: map<string, seq<Trade>>) returns (ghost emitted: seq<Command>)
      requires forall c :: c in groups ==> groups[c] == ClientTrades(orders, c)
      requires forall t :: t in orders ==> t.client in groups
      modifies commander
      ensures commander.sent == old(commander.sent) + emitted
      ensures forall c :: c in emitted ==> c.GetOrder?
      ensures forall client :: ServedClient(emitted, orders, client, maxToCheckStuckPerClient)
    {
      var pending := groups.Keys;
      ghost var done: set<string> := {};
      emitted := [];
      while pending != {}
        invariant pending !! done && pending + done == groups.Keys
        invariant commander.sent == old(commander.sent) + emitted
        invariant OnlyGetOrders(emitted)
        invariant ServedSoFar(emitted, orders, maxToCheckStuckPerClient, done)
        decreases pending
      {
        var client :| client in pending;
        ghost var batch := CheckClient(orders, client, groups[client], emitted, done);
        AppendAssociative(old(commander.sent), emitted, batch);
        emitted := emitted + batch;
        pending := pending - {client};
        done := done + {client};
      }
      AllClientsServed(emitted, orders, groups, maxToCheckStuckPerClient, done);
    }

    /** One client's turn inside the recheck, with the bookkeeping of who has been served. */
    method CheckClient(
      orders: seq<Trade>, client: string, group: seq<Trade>, ghost emitted: seq<Command>, ghost done: set<string>)
      returns (ghost batch: seq<Command>)
      requires group == ClientTrades(orders, client)
      requires client !in done
      requires ServedSoFar(emitted, orders, maxToCheckStuckPerClient, done)
      modifies commander
      ensures commander.sent == old(commander.sent) + batch
      ensures OnlyGetOrders(emitted) ==> OnlyGetOrders(emitted + batch)
      ensures ServedSoFar(emitted + batch, orders, maxToCheckStuckPerClient, done + {client})
    {
      ghost var picked;
      picked, batch := CheckClientOrders(group);
      ServeNextClient(emitted, batch, picked, orders, client, maxToCheckStuckPerClient, done);
    }

    /** One client's turn: shuffle its orders and ask for the first `maxToCheckStuckPerClient`. */
    method CheckClientOrders(group: seq<Trade>) returns (ghost picked: seq<Trade>, ghost batch: seq<Command>)
      modifies commander
      ensures multiset(picked) == multiset(group)
      ensures AsksFirst(batch, picked, maxToCheckStuckPerClient)
      ensures forall c :: c in batch ==> c.GetOrder?
      ensures commander.sent == old(commander.sent) + batch
    {
      var arr := ArrayOf(group);
      Shuffle(arr);
      picked := arr[..];
      batch := SendGetOrders(arr, Min(maxToCheckStuckPerClient, arr.Length));
    }

    /** Get-order commands for the first `n` orders of `arr`, in array order. */
    method SendGetOrders(arr: array<Trade>, n: nat) returns (ghost batch: seq<Command>)
      requires n <= arr.Length
      modifies commander
      ensures batch == Map(GetOrderOf, arr[..n])
      ensures commander.sent == old(commander.sent) + batch
    {
      ghost var orders := arr[..];
      batch := [];
      var k := 0;
      while k < n
        invariant 0 <= k <= n
        invariant arr[..] == orders
        invariant batch == Map(GetOrderOf, orders[..k])
        invariant commander.sent == old(commander.sent) + batch
      {
        var td := arr[k];
        commander.GetOrder(td.client, td.assignedId);
        MapConcat(GetOrderOf, orders[..k], [td]);
        assert orders[..k + 1] == orders[..k] + [td];
        batch := batch + [GetOrderOf(td)];
        k := k + 1;
      }
    }

    /**
     * Sends TIMEOUT to every stale UNKNOWN trade of an enabled client, each
     * under its own checkout: acquire, send, release.
     */
    method OrderTimeouter(ledger: seq<Trade>, now: int)
      modifies tradeMachines
      ensures tradeMachines.log == old(tradeMachines.log) + TimeoutOps(TimeoutCandidates(ledger, now, orderTimeoutS))
      ensures commander.sent == old(commander.sent)
    {
      SendTimeouts(TimeoutCandidates(ledger, now, orderTimeoutS));
    }

    /** The sweep's loop: one checkout per trade of `due`, in order. */
    method SendTimeouts(due: seq<Trade>)
      modifies tradeMachines
      ensures tradeMachines.log == old(tradeMachines.log) + TimeoutOps(due)
    {
      var i := 0;
      while i < |due|
        invariant 0 <= i <= |due|
        invariant tradeMachines.log == old(tradeMachines.log) + TimeoutOps(due[..i])
      {
        var id := due[i].id;
        ghost var before := tradeMachines.log;
        tradeMachines.AcquireStateMachine(id);
        tradeMachines.SendEvent(id, Timeout);
        tradeMachines.ReleaseStateMachine(id);
        assert tradeMachines.log == before + Deliver(id, Timeout);
        TimeoutOpsStep(due, i);
        i := i + 1;
      }
      assert due[..i] == due;
    }
  }

  /** Listing each symbol of a set once sends one list-open command per symbol and nothing else. */
  lemma ListOpenOnce(syms: seq<Symbol>, symbolSet: set<Symbol>)
    requires multiset(syms) == multiset(symbolSet)
    ensures |Map(ListOpenOf, syms)| == |symbolSet|
    ensures forall s :: multiset(Map(ListOpenOf, syms))[ListOpenOf(s)] == if s in symbolSet then 1 else 0
    ensures forall c :: c in Map(ListOpenOf, syms) ==> c.ListOpen?
  {
    assert |multiset(syms)| == |syms|;
    forall s ensures multiset(Map(ListOpenOf, syms))[ListOpenOf(s)] == if s in symbolSet then 1 else 0 {
      MapInjectiveCount(ListOpenOf, syms, s);
    }
  }

  /** Once every client with a group is served, every client is: the others have no orders and got none. */
  lemma AllClientsServed(emitted: seq<Command>, orders: seq<Trade>, groups: map<string, seq<Trade>>, cap: nat, done: set<string>)
    requires forall t :: t in orders ==> t.client in groups
    requires done == groups.Keys
    requires ServedSoFar(emitted, orders, cap, done)
    ensures forall c :: ServedClient(emitted, orders, c, cap)
  {
    forall c ensures ServedClient(emitted, orders, c, cap) {
      if c !in done {
        NoGroupNoTrades(orders, groups, c);
      }
    }
  }

  /** Serving one more client keeps every client served so far served, and leaves the rest untouched. */
  lemma ServeNextClient(
    emitted: seq<Command>, batch: seq<Command>, picked: seq<Trade>,
    orders: seq<Trade>, client: string, cap: nat, done: set<string>)
    requires client !in done
    requires multiset(picked) == multiset(ClientTrades(orders, client))
    requires AsksFirst(batch, picked, cap)
    requires ServedSoFar(emitted, orders, cap, done)
    ensures ServedSoFar(emitted + batch, orders, cap, done + {client})
  {
    BatchServesClient(emitted, batch, picked, orders, client, cap);
    forall c | c in done ensures ServedClient(emitted + batch, orders, c, cap) {
      assert GetOrdersFor(emitted + batch, c) == GetOrdersFor(emitted, c);
    }
  }

  /**
   * One client's batch of the stuck recheck: `picked` is a shuffle of the
   * client's orders, and the batch asks for its first `n` of them.
   */
  lemma BatchServesClient(
    emitted: seq<Command>, batch: seq<Command>, picked: seq<Trade>,
    orders: seq<Trade>, client: string, cap: nat)
    requires multiset(picked) == multiset(ClientTrades(orders, client))
    requires AsksFirst(batch, picked, cap)
    requires GetOrdersFor(emitted, client) == []
    ensures ServedClient(emitted + batch, orders, client, cap)
    ensures forall other :: other != client ==> GetOrdersFor(emitted + batch, other) == GetOrdersFor(emitted, other)
  {
    var group := ClientTrades(orders, client);
    var n := Min(cap, |picked|);
    ShufflePrefix(picked, orders, client, n);
    FilterConcat(GetOrderTo(client), emitted, batch);
    BatchAddressing(batch, picked[..n], client);
    MapSubMultiset(GetOrderOf, picked[..n], group);
    assert |picked| == |multiset(picked)| == |multiset(group)| == |group|;
    forall other | other != client
      ensures GetOrdersFor(emitted + batch, other) == GetOrdersFor(emitted, other)
    {
      FilterConcat(GetOrderTo(other), emitted, batch);
      assert GetOrdersFor(batch, other) == [];
      assert GetOrdersFor(emitted + batch, other) == GetOrdersFor(emitted, other) + [];
    }
  }

  /** A prefix of a shuffle of a client's orders is some of those orders, all the client's. */
  lemma ShufflePrefix(picked: seq<Trade>, orders: seq<Trade>, client: string, n: nat)
    requires multiset(picked) == multiset(ClientTrades(orders, client))
    requires n <= |picked|
    ensures multiset(picked[..n]) <= multiset(ClientTrades(orders, client))
    ensures forall i :: 0 <= i < n ==> picked[..n][i].client == client
  {
    assert picked == picked[..n] + picked[n..];
    forall i | 0 <= i < n ensures picked[..n][i].client == client {
      assert picked[i] in multiset(picked);
    }
  }

  /** The get-order commands for a client's trades are addressed to that client and no other. */
  lemma BatchAddressing(batch: seq<Command>, trades: seq<Trade>, client: string)
    requires batch == Map(GetOrderOf, trades)
    requires forall i :: 0 <= i < |trades| ==> trades[i].client == client
    ensures GetOrdersFor(batch, client) == batch
    ensures forall other :: other != client ==> GetOrdersFor(batch, other) == []
  {
    FilterKeepsAll(GetOrderTo(client), batch);
    forall other | other != client ensures GetOrdersFor(batch, other) == [] {
      FilterDropsAll(GetOrderTo(other), batch);
    }
  }

  /** A client with no more stale orders than the cap gets a get-order for every one of them, each once. */
  lemma SmallClientFullyServed(emitted: seq<Command>, orders: seq<Trade>, client: string, cap: nat)
    requires ServedClient(emitted, orders, client, cap)
    requires |ClientTrades(orders, client)| <= cap
    ensures multiset(GetOrdersFor(emitted, client)) == multiset(Map(GetOrderOf, ClientTrades(orders, client)))
  {
    SubMultisetSameSize(multiset(GetOrdersFor(emitted, client)), multiset(Map(GetOrderOf, ClientTrades(orders, client))));
  }
}
