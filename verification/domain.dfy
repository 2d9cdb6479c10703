/**
 * The trade record as the ledger stores it, and the small value types the
 * admission and reconciliation code passes around.
 *
 * Timestamps (`statusUpdated`, `recordedOn`, the clock's "now") are integer
 * milliseconds. Monetary amounts (`BigDecimal` in the ledger) are reals.
 */
module Domain {
  import opened Wrappers

  type TradeId = string

  /** A trading currency, identified by its code. */
  type Currency = string

  /**
   * The trade statuses this core reads or writes: UNKNOWN, OPENED, CLOSED,
   * CANCELLED, DONE_MAN and DEPENDS_ON.
   */
  datatype TradeStatus = Unknown | Opened | Closed | Cancelled | DoneMan | DependsOn

  /** The wallet a trade locks funds in: one client and one currency. */
  datatype Wallet = Wallet(client: string, currency: Currency)

  /**
   * One row of the trade ledger. `client` is the client's name (its identity)
   * and `clientEnabled` the `enabled` flag of that client. `amount` is the
   * trade's requested amount, `openingAmount` the amount it was opened with;
   * both are signed (positive buys, negative sells).
   */
  datatype Trade = Trade(
    id: TradeId,
    client: string,
    clientEnabled: bool,
    currencyFrom: Currency,
    currencyTo: Currency,
    wallet: Wallet,
    amount: real,
    openingAmount: real,
    openingPrice: real,
    status: TradeStatus,
    statusUpdated: int,
    recordedOn: int,
    assignedId: Option<string>,
    ignoreAsSideLimit: bool,
    dependsOn: Option<TradeId>,
    nnOrder: Option<int>
  )

  /**
   * A (client, from, to) triple: the grouping key of the symbol query and the
   * key under which client and NN configurations are cached.
   */
  datatype Symbol = Symbol(client: string, from: Currency, to: Currency)

  function SymbolOf(t: Trade): Symbol {
    Symbol(t.client, t.currencyFrom, t.currencyTo)
  }

  /** Trade ids are the ledger's primary key: no two rows share one. */
  ghost predicate UniqueIds(ledger: seq<Trade>) {
    forall i, j :: 0 <= i < j < |ledger| ==> ledger[i].id != ledger[j].id
  }

  /** A row of a ledger with unique ids occurs in it exactly once. */
  lemma {:induction false} UniqueIdsOccurOnce(ledger: seq<Trade>, t: Trade)
    requires UniqueIds(ledger)
    requires t in ledger
    ensures multiset(ledger)[t] == 1
  {
    if ledger[0] == t {
      assert ledger == [t] + ledger[1..];
      assert t !in ledger[1..] by {
        forall k | 0 <= k < |ledger[1..]| ensures ledger[1..][k] != t {
          assert ledger[1..][k].id == ledger[k + 1].id != ledger[0].id;
        }
      }
    } else {
      assert ledger == [ledger[0]] + ledger[1..];
      assert UniqueIds(ledger[1..]) by {
        forall i, j | 0 <= i < j < |ledger[1..]| ensures ledger[1..][i].id != ledger[1..][j].id {
          assert ledger[1..][i] == ledger[i + 1] && ledger[1..][j] == ledger[j + 1];
        }
      }
      UniqueIdsOccurOnce(ledger[1..], t);
    }
  }

  /** In a ledger with unique ids a row is determined by its id. */
  lemma SameIdSameRow(ledger: seq<Trade>, x: Trade, y: Trade)
    requires UniqueIds(ledger)
    requires x in ledger && y in ledger && x.id == y.id
    ensures x == y
  {
    var i :| 0 <= i < |ledger| && ledger[i] == x;
    var j :| 0 <= j < |ledger| && ledger[j] == y;
    assert i == j;
  }
}
