/**
 * The ledger queries of the trade repository, each as a pure function over the
 * ledger's rows (`seq<Trade>`): filters, ORDER BY ... DESC sorts, GROUP BY
 * symbol sets and COALESCE(SUM(...), 0) sums.
 *
 * A query without ORDER BY returns the matching rows in ledger order; a query
 * with one returns them sorted on its column, ties in ledger order.
 */
module TradeRepository {
  import opened Wrappers
  import opened Domain
  import opened Seqs

  /** The column an ORDER BY ... DESC clause sorts on. */
  datatype SortKey = ByStatusUpdated | ByRecordedOn

  function KeyOf(t: Trade, key: SortKey): int {
    match key
    case ByStatusUpdated => t.statusUpdated
    case ByRecordedOn => t.recordedOn
  }

  ghost predicate SortedDesc(xs: seq<Trade>, key: SortKey) {
    forall i, j :: 0 <= i < j < |xs| ==> KeyOf(xs[i], key) >= KeyOf(xs[j], key)
  }

  /** Inserts `x` into a descending sequence after every row with a larger-or-equal key. */
  function Insert(x: Trade, xs: seq<Trade>, key: SortKey): (r: seq<Trade>)
    requires SortedDesc(xs, key)
    ensures SortedDesc(r, key)
    ensures multiset(r) == multiset(xs) + multiset{x}
  {
    if xs == [] then [x]
    else if KeyOf(x, key) >= KeyOf(xs[0], key) then [x] + xs
    else
      assert xs == [xs[0]] + xs[1..];
      var rest := Insert(x, xs[1..], key);
      BelowHead(xs, x, rest, key);
      [xs[0]] + rest
  }

  /** Whatever is inserted behind the head of a descending sequence stays below the head. */
  lemma BelowHead(xs: seq<Trade>, x: Trade, rest: seq<Trade>, key: SortKey)
    requires xs != [] && SortedDesc(xs, key) && KeyOf(x, key) < KeyOf(xs[0], key)
    requires multiset(rest) == multiset(xs[1..]) + multiset{x}
    ensures forall j :: 0 <= j < |rest| ==> KeyOf(rest[j], key) <= KeyOf(xs[0], key)
  {
    forall j | 0 <= j < |rest| ensures KeyOf(rest[j], key) <= KeyOf(xs[0], key) {
      assert rest[j] in multiset(rest);
      if rest[j] != x {
        assert rest[j] in xs[1..];
        var k :| 0 <= k < |xs[1..]| && xs[1..][k] == rest[j];
        assert xs[k + 1] == rest[j];
      }
    }
  }

  /** The rows of `xs` in descending order of `key`. */
  function SortDesc(xs: seq<Trade>, key: SortKey): (r: seq<Trade>)
    ensures SortedDesc(r, key)
    ensures multiset(r) == multiset(xs)
  {
    if xs == [] then []
    else
      assert xs == [xs[0]] + xs[1..];
      Insert(xs[0], SortDesc(xs[1..], key), key)
  }

  // ---------------------------------------------------------------------------
  // Status / staleness queries

  /** `status IN (:statuses) AND statusUpdated <= :lastUpdate AND client.enabled = :clientEnabled` */
  predicate StatusInUpdatedBefore(t: Trade, statuses: set<TradeStatus>, lastUpdate: int, clientEnabled: bool) {
    t.status in statuses && t.statusUpdated <= lastUpdate && t.clientEnabled == clientEnabled
  }

  /** The stale trades of enabled (or disabled) clients in the given statuses, newest update first. */
  function FindByStatusInAndStatusUpdatedBefore(
    ledger: seq<Trade>, statuses: set<TradeStatus>, lastUpdate: int, clientEnabled: bool): (r: seq<Trade>)
    ensures forall t :: multiset(r)[t] ==
              (if StatusInUpdatedBefore(t, statuses, lastUpdate, clientEnabled) then multiset(ledger)[t] else 0)
    ensures SortedDesc(r, ByStatusUpdated)
  {
    SortDesc(Filter(t => StatusInUpdatedBefore(t, statuses, lastUpdate, clientEnabled), ledger), ByStatusUpdated)
  }

  /** The first query's filter, plus: the trade belongs to an NN order and depends on a master. */
  predicate NnSlaveWith(t: Trade, statuses: set<TradeStatus>, lastUpdate: int, clientEnabled: bool) {
    StatusInUpdatedBefore(t, statuses, lastUpdate, clientEnabled) && t.nnOrder.Some? && t.dependsOn.Some?
  }

  function FindNnSlaveByStatusInAndStatusUpdatedBefore(
    ledger: seq<Trade>, statuses: set<TradeStatus>, lastUpdate: int, clientEnabled: bool): (r: seq<Trade>)
    ensures forall t :: multiset(r)[t] ==
              (if NnSlaveWith(t, statuses, lastUpdate, clientEnabled) then multiset(ledger)[t] else 0)
    ensures SortedDesc(r, ByStatusUpdated)
  {
    SortDesc(Filter(t => NnSlaveWith(t, statuses, lastUpdate, clientEnabled), ledger), ByStatusUpdated)
  }

  /**
   * Status and client filter as above but on `recordedOn <= :lastUpdate`; the
   * trade belongs to an NN order and depends on no master.
   */
  predicate NnMasterWith(t: Trade, statuses: set<TradeStatus>, lastUpdate: int, clientEnabled: bool) {
    t.status in statuses && t.recordedOn <= lastUpdate && t.clientEnabled == clientEnabled
    && t.nnOrder.Some? && t.dependsOn.None?
  }

  function FindNnMasterByStatusInAndRecordedOnBefore(
    ledger: seq<Trade>, statuses: set<TradeStatus>, lastUpdate: int, clientEnabled: bool): (r: seq<Trade>)
    ensures forall t :: multiset(r)[t] ==
              (if NnMasterWith(t, statuses, lastUpdate, clientEnabled) then multiset(ledger)[t] else 0)
    ensures SortedDesc(r, ByRecordedOn)
  {
    SortDesc(Filter(t => NnMasterWith(t, statuses, lastUpdate, clientEnabled), ledger), ByRecordedOn)
  }

  /** No row is both an NN slave and an NN master, whatever the other filter arguments. */
  lemma NnSlaveAndMasterDisjoint(
    ledger: seq<Trade>, t: Trade,
    slaveStatuses: set<TradeStatus>, slaveUpdate: int, slaveEnabled: bool,
    masterStatuses: set<TradeStatus>, masterRecorded: int, masterEnabled: bool)
    ensures !(t in FindNnSlaveByStatusInAndStatusUpdatedBefore(ledger, slaveStatuses, slaveUpdate, slaveEnabled)
              && t in FindNnMasterByStatusInAndRecordedOnBefore(ledger, masterStatuses, masterRecorded, masterEnabled))
  {
    var slaves := FindNnSlaveByStatusInAndStatusUpdatedBefore(ledger, slaveStatuses, slaveUpdate, slaveEnabled);
    var masters := FindNnMasterByStatusInAndRecordedOnBefore(ledger, masterStatuses, masterRecorded, masterEnabled);
    assert t in slaves ==> multiset(slaves)[t] > 0;
    assert t in masters ==> multiset(masters)[t] > 0;
  }

  /** The (client, from, to) triples of the matching trades, each once (GROUP BY). */
  function FindSymbols(
    ledger: seq<Trade>, statuses: set<TradeStatus>, lastUpdate: int, clientEnabled: bool): (r: set<Symbol>)
    ensures forall t :: t in ledger && StatusInUpdatedBefore(t, statuses, lastUpdate, clientEnabled) ==> SymbolOf(t) in r
    ensures forall s :: s in r ==>
              exists t :: t in ledger && StatusInUpdatedBefore(t, statuses, lastUpdate, clientEnabled) && SymbolOf(t) == s
  {
    set t | t in ledger && StatusInUpdatedBefore(t, statuses, lastUpdate, clientEnabled) :: SymbolOf(t)
  }

  // ---------------------------------------------------------------------------
  // Exposure and locked-funds sums

  /**
   * The rows the side-exposure sum covers: same client and pair, status in the
   * set, and not flagged `ignoreAsSideLimit`.
   */
  predicate CountsTowardSide(t: Trade, client: string, from: Currency, to: Currency, statuses: set<TradeStatus>) {
    t.client == client && t.currencyFrom == from && t.currencyTo == to
    && t.status in statuses && !t.ignoreAsSideLimit
  }

  /** COALESCE(SUM(openingAmount), 0) over the rows `CountsTowardSide` selects. */
  function TradeBalanceWithSide(
    ledger: seq<Trade>, client: string, from: Currency, to: Currency, statuses: set<TradeStatus>): (r: real)
    ensures (forall t :: t in ledger ==> !CountsTowardSide(t, client, from, to, statuses)) ==> r == 0.0
  {
    if ledger == [] then 0.0
    else
      (if CountsTowardSide(ledger[0], client, from, to, statuses) then ledger[0].openingAmount else 0.0)
      + TradeBalanceWithSide(ledger[1..], client, from, to, statuses)
  }

  /** Adding a row moves the balance by its opening amount exactly when the row counts. */
  lemma {:induction false} TradeBalanceWithSideAppend(
    ledger: seq<Trade>, t: Trade, client: string, from: Currency, to: Currency, statuses: set<TradeStatus>)
    ensures TradeBalanceWithSide(ledger + [t], client, from, to, statuses)
         == TradeBalanceWithSide(ledger, client, from, to, statuses)
            + (if CountsTowardSide(t, client, from, to, statuses) then t.openingAmount else 0.0)
  {
    if ledger != [] {
      assert (ledger + [t])[1..] == ledger[1..] + [t];
      TradeBalanceWithSideAppend(ledger[1..], t, client, from, to, statuses);
    }
  }

  predicate LocksBuy(t: Trade, wallet: Wallet, statuses: set<TradeStatus>) {
    t.wallet == wallet && t.status in statuses && t.openingAmount > 0.0
  }

  /** What one row adds to the buy-side lock: its notional `openingAmount * openingPrice` if it is a buy. */
  function BuyLock(t: Trade, wallet: Wallet, statuses: set<TradeStatus>): (r: real)
    ensures !LocksBuy(t, wallet, statuses) ==> r == 0.0
    ensures t.openingPrice >= 0.0 ==> r >= 0.0
  {
    if LocksBuy(t, wallet, statuses) then t.openingAmount * t.openingPrice else 0.0
  }

  /** COALESCE(SUM(openingAmount * openingPrice), 0) over the wallet's buy rows in the statuses. */
  function LockedByBuyTradesWithStatus(ledger: seq<Trade>, wallet: Wallet, statuses: set<TradeStatus>): (r: real)
    ensures (forall t :: t in ledger ==> !LocksBuy(t, wallet, statuses)) ==> r == 0.0
    ensures (forall t :: t in ledger && LocksBuy(t, wallet, statuses) ==> t.openingPrice >= 0.0) ==> r >= 0.0
  {
    if ledger == [] then 0.0
    else BuyLock(ledger[0], wallet, statuses) + LockedByBuyTradesWithStatus(ledger[1..], wallet, statuses)
  }

  lemma {:induction false} LockedByBuyAppend(ledger: seq<Trade>, t: Trade, wallet: Wallet, statuses: set<TradeStatus>)
    ensures LockedByBuyTradesWithStatus(ledger + [t], wallet, statuses)
         == LockedByBuyTradesWithStatus(ledger, wallet, statuses) + BuyLock(t, wallet, statuses)
  {
    if ledger != [] {
      assert (ledger + [t])[1..] == ledger[1..] + [t];
      LockedByBuyAppend(ledger[1..], t, wallet, statuses);
    }
  }

  predicate LocksSell(t: Trade, wallet: Wallet, statuses: set<TradeStatus>) {
    t.wallet == wallet && t.status in statuses && t.openingAmount < 0.0
  }

  /** COALESCE(SUM(-openingAmount), 0) over the wallet's sell rows in the statuses. */
  function LockedBySellTradesWithStatus(ledger: seq<Trade>, wallet: Wallet, statuses: set<TradeStatus>): (r: real)
    ensures r >= 0.0
    ensures (forall t :: t in ledger ==> !LocksSell(t, wallet, statuses)) ==> r == 0.0
  {
    if ledger == [] then 0.0
    else
      (if LocksSell(ledger[0], wallet, statuses) then -ledger[0].openingAmount else 0.0)
      + LockedBySellTradesWithStatus(ledger[1..], wallet, statuses)
  }

  lemma {:induction false} LockedBySellAppend(ledger: seq<Trade>, t: Trade, wallet: Wallet, statuses: set<TradeStatus>)
    ensures LockedBySellTradesWithStatus(ledger + [t], wallet, statuses)
         == LockedBySellTradesWithStatus(ledger, wallet, statuses)
            + (if LocksSell(t, wallet, statuses) then -t.openingAmount else 0.0)
  {
    if ledger != [] {
      assert (ledger + [t])[1..] == ledger[1..] + [t];
      LockedBySellAppend(ledger[1..], t, wallet, statuses);
    }
  }

  // ---------------------------------------------------------------------------
  // Dependency queries

  /** The first row with the given id (rows are unique by id). */
  function FindById(ledger: seq<Trade>, id: TradeId): (r: Option<Trade>)
    ensures r.Some? ==> r.value in ledger && r.value.id == id
    ensures r.None? ==> forall t :: t in ledger ==> t.id != id
  {
    if ledger == [] then None
    else if ledger[0].id == id then Some(ledger[0])
    else FindById(ledger[1..], id)
  }

  /**
   * `dependsOn.status IN (:orderStatus) AND status IN (:dependentStatus)`: the
   * path expression joins the master, so a row without one never matches.
   */
  predicate DependantWith(ledger: seq<Trade>, t: Trade, dependentStatus: set<TradeStatus>, orderStatus: set<TradeStatus>) {
    t.status in dependentStatus
    && match t.dependsOn
       case None => false
       case Some(masterId) =>
         match FindById(ledger, masterId)
         case None => false
         case Some(master) => master.status in orderStatus
  }

  function FindDependantsByMasterStatus(
    ledger: seq<Trade>, dependentStatus: set<TradeStatus>, orderStatus: set<TradeStatus>): (r: seq<Trade>)
    ensures forall t :: multiset(r)[t] ==
              (if DependantWith(ledger, t, dependentStatus, orderStatus) then multiset(ledger)[t] else 0)
    ensures forall t :: t in r ==> t.dependsOn.Some? && t.status in dependentStatus
  {
    var r := Filter(t => DependantWith(ledger, t, dependentStatus, orderStatus), ledger);
    assert forall t :: t in r ==> multiset(r)[t] > 0;
    r
  }

  /** With unique ids, a row is a dependant exactly when its own master's status qualifies. */
  lemma DependantOfMaster(
    ledger: seq<Trade>, t: Trade, master: Trade, dependentStatus: set<TradeStatus>, orderStatus: set<TradeStatus>)
    requires UniqueIds(ledger)
    requires master in ledger && t.dependsOn == Some(master.id)
    ensures t in FindDependantsByMasterStatus(ledger, dependentStatus, orderStatus)
        <==> t in ledger && t.status in dependentStatus && master.status in orderStatus
  {
    var found := FindById(ledger, master.id);
    SameIdSameRow(ledger, found.value, master);
    var r := FindDependantsByMasterStatus(ledger, dependentStatus, orderStatus);
    assert t in r <==> multiset(r)[t] > 0;
  }

  // ---------------------------------------------------------------------------
  // Counting rows by id

  /** How many rows of `xs` carry the id. */
  function IdCount(xs: seq<Trade>, id: TradeId): nat {
    if xs == [] then 0 else (if xs[0].id == id then 1 else 0) + IdCount(xs[1..], id)
  }

  /** When `t` is the only row with its id, counting the id counts `t`. */
  lemma {:induction false} IdCountOfOnlyRow(xs: seq<Trade>, t: Trade)
    requires forall x :: x in xs && x.id == t.id ==> x == t
    ensures IdCount(xs, t.id) == multiset(xs)[t]
  {
    if xs != [] {
      assert xs == [xs[0]] + xs[1..];
      IdCountOfOnlyRow(xs[1..], t);
    }
  }

  /** A query result drawn from a ledger with unique ids holds each row's id at most once. */
  lemma IdCountOfSubLedger(ledger: seq<Trade>, q: seq<Trade>, t: Trade)
    requires UniqueIds(ledger) && t in ledger
    requires forall x :: multiset(q)[x] <= multiset(ledger)[x]
    ensures IdCount(q, t.id) == multiset(q)[t] <= 1
  {
    forall x | x in q && x.id == t.id ensures x == t {
      assert multiset(q)[x] > 0;
      assert x in ledger;
      SameIdSameRow(ledger, x, t);
    }
    IdCountOfOnlyRow(q, t);
    UniqueIdsOccurOnce(ledger, t);
  }

  /** The staleness query returns every matching row of a unique-id ledger exactly once, and no other. */
  lemma StaleQueryReturnsOnce(
    ledger: seq<Trade>, statuses: set<TradeStatus>, lastUpdate: int, clientEnabled: bool, t: Trade)
    requires UniqueIds(ledger) && t in ledger
    ensures IdCount(FindByStatusInAndStatusUpdatedBefore(ledger, statuses, lastUpdate, clientEnabled), t.id)
         == if StatusInUpdatedBefore(t, statuses, lastUpdate, clientEnabled) then 1 else 0
  {
    var q := FindByStatusInAndStatusUpdatedBefore(ledger, statuses, lastUpdate, clientEnabled);
    IdCountOfSubLedger(ledger, q, t);
    UniqueIdsOccurOnce(ledger, t);
  }
}
