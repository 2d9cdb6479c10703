/**
 * A state-machine service as the jobs see it: machines are checked out by key,
 * sent events and handed back, and every such operation is appended to the
 * service's log. The transition tables behind the machines are not modelled.
 */
module StateMachines {

  datatype MachineOp<K, E> = Acquire(machine: K) | Send(machine: K, event: E) | Release(machine: K)

  /** Events of the per-trade machines that the jobs send. */
  datatype TradeEvent = Timeout | Cancelled

  /** Events of the NN acceptance machines: CONTINUE with its ORDER_ID header. */
  datatype AcceptMessage = Continue(orderId: int)

  /** The key of an NN acceptance machine: the NN order id behind NN_OPPORTUNITY_PREFIX. */
  datatype NnMachineKey = NnOpportunity(orderId: int)

  /** The three operations by which one event is delivered under checkout. */
  function Deliver<K, E>(machine: K, event: E): seq<MachineOp<K, E>> {
    [Acquire(machine), Send(machine, event), Release(machine)]
  }

  /**
   * The log is a sequence of complete checkouts: each acquisition is followed
   * by one event to the same machine and then its release.
   */
  ghost predicate Bracketed<K, E>(ops: seq<MachineOp<K, E>>) {
    if ops == [] then true
    else
      |ops| >= 3 && ops[0].Acquire? && ops[1].Send? && ops[2] == Release(ops[0].machine)
      && ops[1].machine == ops[0].machine && Bracketed(ops[3..])
  }

  lemma {:induction false} BracketedConcat<K, E>(a: seq<MachineOp<K, E>>, b: seq<MachineOp<K, E>>)
    requires Bracketed(a) && Bracketed(b)
    ensures Bracketed(a + b)
  {
    if a == [] {
      assert a + b == b;
    } else {
      assert (a + b)[3..] == a[3..] + b;
      BracketedConcat(a[3..], b);
    }
  }

  /** How many checkouts a log holds; in a bracketed log it equals the releases. */
  function Acquisitions<K, E>(ops: seq<MachineOp<K, E>>): nat {
    if ops == [] then 0 else (if ops[0].Acquire? then 1 else 0) + Acquisitions(ops[1..])
  }

  function Releases<K, E>(ops: seq<MachineOp<K, E>>): nat {
    if ops == [] then 0 else (if ops[0].Release? then 1 else 0) + Releases(ops[1..])
  }

  /** In a bracketed log every acquisition is matched by a release. */
  lemma {:induction false} BracketedBalances<K, E>(ops: seq<MachineOp<K, E>>)
    requires Bracketed(ops)
    ensures Acquisitions(ops) == Releases(ops)
  {
    if ops != [] {
      var tail1, tail2 := ops[1..], ops[1..][1..];
      assert tail1[0] == ops[1] && tail2[0] == ops[2] && tail2[1..] == ops[3..];
      assert Acquisitions(ops) == 1 + Acquisitions(tail1);
      assert Acquisitions(tail1) == Acquisitions(tail2);
      assert Acquisitions(tail2) == Acquisitions(ops[3..]);
      assert Releases(ops) == Releases(tail1);
      assert Releases(tail1) == Releases(tail2);
      assert Releases(tail2) == 1 + Releases(ops[3..]);
      BracketedBalances(ops[3..]);
    }
  }

  class StateMachineService<K, E> {
    var log: seq<MachineOp<K, E>>

    constructor ()
      ensures log == []
    {
      log := [];
    }

    method AcquireStateMachine(machine: K)
      modifies this
      ensures log == old(log) + [Acquire(machine)]
    {
      log := log + [Acquire(machine)];
    }

    method SendEvent(machine: K, event: E)
      modifies this
      ensures log == old(log) + [Send(machine, event)]
    {
      log := log + [Send(machine, event)];
    }

    method ReleaseStateMachine(machine: K)
      modifies this
      ensures log == old(log) + [Release(machine)]
    {
      log := log + [Release(machine)];
    }
  }
}
