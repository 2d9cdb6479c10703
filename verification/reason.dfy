/**
 * The closed vocabulary of admission rejections and the rejection value that
 * carries one. A rejection is an ordinary result, not an exception: callers
 * branch on its `Reason`.
 */
module Reasons {
  import opened Wrappers

  /**
   * The fourteen reasons, in declaration order: GEN_ERR, NO_CONFIG, DISABLED,
   * LOW_PROFIT_PRE, RATE_TOO_HIGH, LOW_PROFIT, LOW_BALANCE, MAX_LT_MIN,
   * VALIDATION_FAIL, OPT_CONSTR_FAIL, TOO_FREQUENT_SOLVE, SOL_VALID_FAIL,
   * LOW_BAL, SIDE_LIMIT.
   */
  datatype Reason =
    | GenErr | NoConfig | Disabled | LowProfitPre | RateTooHigh | LowProfit | LowBalance
    | MaxLtMin | ValidationFail | OptConstrFail | TooFrequentSolve | SolValidFail | LowBal | SideLimit

  /** Every reason once, in declaration order. */
  const AllReasons: seq<Reason> := [
    GenErr, NoConfig, Disabled, LowProfitPre, RateTooHigh, LowProfit, LowBalance,
    MaxLtMin, ValidationFail, OptConstrFail, TooFrequentSolve, SolValidFail, LowBal, SideLimit
  ]

  /** The declaration index of a reason (its enum ordinal). */
  function Ordinal(r: Reason): (i: nat)
    ensures i < |AllReasons| && AllReasons[i] == r
  {
    match r
    case GenErr => 0
    case NoConfig => 1
    case Disabled => 2
    case LowProfitPre => 3
    case RateTooHigh => 4
    case LowProfit => 5
    case LowBalance => 6
    case MaxLtMin => 7
    case ValidationFail => 8
    case OptConstrFail => 9
    case TooFrequentSolve => 10
    case SolValidFail => 11
    case LowBal => 12
    case SideLimit => 13
  }

  /** Length and first letter of each message: together they tell the messages apart. */
  function Signature(r: Reason): (int, char) {
    match r
    case GenErr => (23, 'U')
    case NoConfig => (14, 'M')
    case Disabled => (14, 'T')
    case LowProfitPre => (16, 'L')
    case RateTooHigh => (31, 'O')
    case LowProfit => (10, 'L')
    case LowBalance => (11, 'L')
    case MaxLtMin => (29, 'C')
    case ValidationFail => (21, 'F')
    case OptConstrFail => (35, 'O')
    case TooFrequentSolve => (30, 'T')
    case SolValidFail => (39, 'O')
    case LowBal => (18, 'L')
    case SideLimit => (41, 'L')
  }

  /** The fixed message of each reason. */
  function Msg(r: Reason): (m: string)
    ensures |m| > 0 && Signature(r) == (|m|, m[0])
  {
    match r
    case GenErr => "Uncategorized exception"
    case NoConfig => "Missing config"
    case Disabled => "Trade disabled"
    case LowProfitPre => "Low profit (pre)"
    case RateTooHigh => "Opportunity creation rate limit"
    case LowProfit => "Low profit"
    case LowBalance => "Low balance"
    case MaxLtMin => "Calculated capacity max < min"
    case ValidationFail => "Failed DTO validation"
    case OptConstrFail => "Optimization failed hard constraint"
    case TooFrequentSolve => "Too frequent solver invocation"
    case SolValidFail => "Optimization solution failed validation"
    case LowBal => "Low wallet balance"
    case SideLimit => "Limited due to high trade sum on one side"
  }

  /** The first reason among `rs` whose message is `m`, if any. */
  function Lookup(m: string, rs: seq<Reason>): (r: Option<Reason>)
    ensures r.Some? ==> r.value in rs && Msg(r.value) == m
    ensures r.None? ==> forall i :: 0 <= i < |rs| ==> Msg(rs[i]) != m
  {
    if rs == [] then None
    else if Msg(rs[0]) == m then Some(rs[0])
    else Lookup(m, rs[1..])
  }

  /** The reason whose message is `m`, if any: the inverse of `Msg`. */
  function ReasonOfMsg(m: string): (r: Option<Reason>)
    ensures r.Some? ==> Msg(r.value) == m
    ensures r.None? ==> forall i :: 0 <= i < |AllReasons| ==> Msg(AllReasons[i]) != m
  {
    Lookup(m, AllReasons)
  }

  /** The enumeration has exactly fourteen variants, each listed once. */
  lemma ReasonCount()
    ensures |AllReasons| == 14
    ensures forall r: Reason :: r in AllReasons
    ensures forall i, j :: 0 <= i < j < |AllReasons| ==> AllReasons[i] != AllReasons[j]
  {
    forall r: Reason ensures r in AllReasons {
      assert AllReasons[Ordinal(r)] == r;
    }
  }

  /** Distinct reasons have distinct messages. */
  lemma MsgInjective(a: Reason, b: Reason)
    ensures Msg(a) == Msg(b) ==> a == b
  {
  }

  /** Every message names its reason back. */
  lemma MsgRoundTrip(r: Reason)
    ensures ReasonOfMsg(Msg(r)) == Some(r)
  {
    var back := ReasonOfMsg(Msg(r));
    assert AllReasons[Ordinal(r)] == r;
    MsgInjective(back.value, r);
  }

  /**
   * A rejection: the reason alone, or the reason with the value that failed a
   * threshold and the threshold itself.
   */
  datatype Rejection =
    | Rejected(reason: Reason)
    | RejectedAt(reason: Reason, value: real, threshold: real)
}
