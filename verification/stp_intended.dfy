/**
 * The convergence step with the root election the source evidently intends:
 * a port newly elected ROOT evicts the current root port (if there is one)
 * into the blocked list and becomes the only root port. Everything except
 * the ROOT branch's list update is the step of `StpUpdate.Apply`.
 */
module StpIntended {
  import opened Wrappers
  import opened PortList
  import opened PortRoles
  import opened StpUpdate

  /**
   * The port lists after a ROOT verdict for `port`: if the port is not yet a
   * root port, the previous root port (the head of the root list, if any)
   * is registered as blocked and the root list becomes the new port alone.
   */
  function RootListsIntended(ls: PortLists, port: int): (r: PortLists)
    ensures r.designated == ls.designated
    ensures HasPort(r.root, port)
    ensures HasPort(ls.root, port) ==> r == ls
    ensures !HasPort(ls.root, port) && ls.root != [] ==>
      && r.root == [PortRecord(PlaceholderAddress, port)]
      && RegistersOnce(ls.block, r.block, ls.root[0].port)
    ensures ls.root == [] ==> r.root == [PortRecord(PlaceholderAddress, port)] && r.block == ls.block
  {
    if HasPort(ls.root, port) then ls
    else
      var rec := PortRecord(PlaceholderAddress, port);
      match RemoveHead(ls.root)
      case None => ls.(root := Add(ls.root, rec))
      case Some((oldRoot, _)) =>
        PortLists(ls.designated, Add([], rec), AddIfAbsent(ls.block, PortRecord(None, oldRoot)))
  }

  /**
   * The intended step: it fails and changes nothing in exactly the cases
   * `Apply` does, and differs from it only after a ROOT verdict, where it
   * needs no precondition.
   */
  function ApplyIntended(st: Status, ls: PortLists, adv: Advertisement): (r: Outcome)
    ensures r.rc == ErrStp <==> SelfLoop(st, adv) || SamePid(st, adv)
    ensures r.rc == ErrStp ==> r.status == st && r.lists == ls
    ensures Verdict(st, adv) != RootPort ==> r == Apply(st, ls, adv)
    ensures !SelfLoop(st, adv) && !SamePid(st, adv) && Verdict(st, adv) == RootPort ==>
      r.rc == Success && r.status == ElectRoot(st, adv) && r.lists == RootListsIntended(ls, adv.originPort)
  {
    if !SelfLoop(st, adv) && !SamePid(st, adv) && Verdict(st, adv) == RootPort then
      Outcome(Success, ElectRoot(st, adv), RootListsIntended(ls, adv.originPort))
    else
      Apply(st, ls, adv)
  }

  /**
   * On lists that satisfy the protocol invariant, the intended step differs
   * from the source's only where the source faults: wherever `Apply` is
   * defined the two agree.
   */
  lemma IntendedAgreesWhereDefined(st: Status, ls: PortLists, adv: Advertisement)
    requires ListsInvariant(ls) && Defined(st, ls, adv)
    ensures ApplyIntended(st, ls, adv) == Apply(st, ls, adv)
  {
    if !SelfLoop(st, adv) && !SamePid(st, adv) && Verdict(st, adv) == RootPort {
      RootVerdictLists(st, ls, adv);
    }
  }

  /** The intended step keeps the protocol invariant from every state satisfying it, without the `Defined` precondition. */
  lemma IntendedKeepsInvariant(st: Status, ls: PortLists, adv: Advertisement)
    requires ListsInvariant(ls)
    ensures ListsInvariant(ApplyIntended(st, ls, adv).lists)
  {
    if !SelfLoop(st, adv) && !SamePid(st, adv) && Verdict(st, adv) == RootPort {
      var r := RootListsIntended(ls, adv.originPort);
      if !HasPort(ls.root, adv.originPort) && ls.root != [] {
        assert |r.root| == 1;
      }
    } else {
      ApplyKeepsInvariant(st, ls, adv);
    }
  }

  /** A sequence of advertisements applied in order; a rejected one leaves the state as it was. */
  function RunIntended(st: Status, ls: PortLists, advs: seq<Advertisement>): (r: (Status, PortLists))
    decreases |advs|
  {
    if advs == [] then (st, ls)
    else
      var step := ApplyIntended(st, ls, advs[0]);
      RunIntended(step.status, step.lists, advs[1..])
  }

  /**
   * After any sequence of advertisements the designated and blocked lists
   * hold no duplicate port and the root list at most one entry.
   */
  lemma {:induction false} RunIntendedKeepsInvariant(st: Status, ls: PortLists, advs: seq<Advertisement>)
    requires ListsInvariant(ls)
    ensures ListsInvariant(RunIntended(st, ls, advs).1)
    decreases |advs|
  {
    if advs != [] {
      var step := ApplyIntended(st, ls, advs[0]);
      IntendedKeepsInvariant(st, ls, advs[0]);
      RunIntendedKeepsInvariant(step.status, step.lists, advs[1..]);
    }
  }

  /**
   * Two ROOT elections on different ports of a fresh bridge: the first port
   * ends up blocked, the second is the one root port.
   */
  lemma IntendedSecondRootElection(st: Status, adv1: Advertisement, adv2: Advertisement)
    requires !SelfLoop(st, adv1) && !SamePid(st, adv1) && Verdict(st, adv1) == RootPort
    requires var first := ApplyIntended(st, PortLists([], [], []), adv1);
      !SelfLoop(first.status, adv2) && !SamePid(first.status, adv2) && Verdict(first.status, adv2) == RootPort
    requires adv2.originPort != adv1.originPort
    ensures var first := ApplyIntended(st, PortLists([], [], []), adv1);
      var second := ApplyIntended(first.status, first.lists, adv2);
      && second.rc == Success
      && second.lists.root == [PortRecord(PlaceholderAddress, adv2.originPort)]
      && HasPort(second.lists.block, adv1.originPort)
      && second.lists.designated == []
  {
    var first := ApplyIntended(st, PortLists([], [], []), adv1);
    assert first.lists.root == [PortRecord(PlaceholderAddress, adv1.originPort)];
    assert !HasPort(first.lists.root, adv2.originPort);
    var second := ApplyIntended(first.status, first.lists, adv2);
    assert second.lists.root == Add([], PortRecord(PlaceholderAddress, adv2.originPort));
  }
}
