/**
 * The convergence step of the bridge loop-prevention protocol
 * (`update__stp_properties`): an advertisement received on a bridge is
 * checked, classified by `set__ports`, and applied to the broker's protocol
 * status and to the bridge's designated, root and blocked port lists.
 *
 * `Apply` states the step as written in the source, `UpdateStpProperties`
 * performs it in place on a `StpState` and a `Bridge`.
 */
module StpUpdate {
  import opened Wrappers
  import opened PortList
  import opened PortRoles

  /** A BPDU packet with its numeric fields already parsed. */
  datatype Advertisement = Advertisement(
    originAddress: Option<string>, originId: Option<string>,
    originPort: int, originPid: int,
    rootPort: int, rootPid: int, distance: int)

  /** The return codes of `update__stp_properties`. */
  datatype Rc = Success | ErrStp

  /** A bridge's three port lists. */
  datatype PortLists = PortLists(designated: seq<PortRecord>, root: seq<PortRecord>, block: seq<PortRecord>)

  /** What one step returns, with the status and the lists it leaves behind. */
  datatype Outcome = Outcome(rc: Rc, status: Status, lists: PortLists)

  /** The source stores the four-character string "NULL" as the address of a classified port. */
  const PlaceholderAddress: Option<string> := Some("NULL")

  /**
   * The advertisement comes from this broker's own address and port. The
   * source compares the two address pointers; the model compares the
   * addresses as values.
   */
  predicate SelfLoop(st: Status, adv: Advertisement)
  {
    st.my.address == adv.originAddress && st.my.port == adv.originPort
  }

  /** The advertisement carries this broker's own pid. */
  predicate SamePid(st: Status, adv: Advertisement)
  {
    st.my.pid == adv.originPid
  }

  /** The verdict `set__ports` gives the link the advertisement arrived on. */
  function Verdict(st: Status, adv: Advertisement): Role
  {
    SetPorts(st, adv.rootPort, adv.rootPid, adv.distance, adv.originPort, adv.originPid)
  }

  /**
   * The status after a ROOT verdict: the believed root takes the claimed root
   * pid and port, and the origin's `_id` and address when the packet has
   * them; the distance becomes one more than the advertised one.
   */
  function ElectRoot(st: Status, adv: Advertisement): (r: Status)
    ensures r.my == st.my
    ensures r.myRoot.pid == adv.rootPid && r.myRoot.port == adv.rootPort
    ensures r.distance == adv.distance + 1
    ensures r.myRoot.id == (if adv.originId.Some? then adv.originId else st.myRoot.id)
    ensures r.myRoot.address == (if adv.originAddress.Some? then adv.originAddress else st.myRoot.address)
  {
    var root := st.myRoot.(
      pid := adv.rootPid,
      port := adv.rootPort,
      id := if adv.originId.Some? then adv.originId else st.myRoot.id,
      address := if adv.originAddress.Some? then adv.originAddress else st.myRoot.address);
    st.(myRoot := root, distance := adv.distance + 1)
  }

  /** Prepends `rec` unless a record with its port is already there (the `in_list` guard before `add`). */
  function AddIfAbsent(l: seq<PortRecord>, rec: PortRecord): (r: seq<PortRecord>)
    ensures HasPort(r, rec.port)
    ensures forall port :: HasPort(r, port) <==> port == rec.port || HasPort(l, port)
    ensures NoDupPorts(l) ==> NoDupPorts(r)
    ensures HasPort(l, rec.port) ==> r == l
  {
    if HasPort(l, rec.port) then l else Add(l, rec)
  }

  /**
   * The ROOT branch reaches `remove_node` with a one-element root list, where
   * the source dereferences NULL.
   */
  predicate RemoveNodeFaults(ls: PortLists, port: int)
  {
    !HasPort(ls.root, port) && |ls.root| == 1
  }

  /**
   * The port lists after a ROOT verdict for `port`, as written. When the
   * port is new to the root list, `remove_node` unlinks the root list's
   * second record and yields its head's port; a non-zero old root is added to
   * the blocked list if absent, and then the record in `temp`, whose port was
   * overwritten with the old root, is prepended to the root list.
   */
  function RootListsAsWritten(ls: PortLists, port: int): PortLists
    requires !RemoveNodeFaults(ls, port)
  {
    if HasPort(ls.root, port) then ls
    else
      var removal := RemoveNode(ls.root);
      var oldRoot := removal.port;
      if oldRoot != 0 then
        if HasPort(ls.block, oldRoot) then
          ls.(root := Add(removal.rest, PortRecord(PlaceholderAddress, oldRoot)))
        else
          var rec := PortRecord(None, oldRoot);
          PortLists(ls.designated, Add(removal.rest, rec), Add(ls.block, rec))
      else
        ls.(root := Add(removal.rest, PortRecord(PlaceholderAddress, port)))
  }

  /** The step does not reach the NULL dereference of `remove_node`. */
  predicate Defined(st: Status, ls: PortLists, adv: Advertisement)
  {
    (!SelfLoop(st, adv) && !SamePid(st, adv) && Verdict(st, adv) == RootPort) ==>
      !RemoveNodeFaults(ls, adv.originPort)
  }

  /**
   * `update__stp_properties` on values. It fails with MOSQ_ERR_STP exactly
   * for a self-loop or a duplicate pid, and then changes nothing; the NO_PORT
   * branch, which also fails, cannot be reached once the pid check passed.
   */
  function Apply(st: Status, ls: PortLists, adv: Advertisement): (r: Outcome)
    requires Defined(st, ls, adv)
    ensures r.rc == ErrStp <==> SelfLoop(st, adv) || SamePid(st, adv)
    ensures r.rc == ErrStp ==> r.status == st && r.lists == ls
  {
    if SelfLoop(st, adv) then Outcome(ErrStp, st, ls)
    else if SamePid(st, adv) then Outcome(ErrStp, st, ls)
    else
      var temp := PortRecord(PlaceholderAddress, adv.originPort);
      match Verdict(st, adv)
      case DesignatedPort => Outcome(Success, st, ls.(designated := AddIfAbsent(ls.designated, temp)))
      case RootPort => Outcome(Success, ElectRoot(st, adv), RootListsAsWritten(ls, adv.originPort))
      case BlockedPort => Outcome(Success, st, ls.(block := AddIfAbsent(ls.block, temp)))
      case NoPort => Outcome(ErrStp, st, ls)
  }

  /** The protocol status of this broker (`db->stp`), updated in place. */
  class StpState {
    var my: BrokerInfo
    var myRoot: BrokerInfo
    var distance: int

    constructor (my: BrokerInfo, myRoot: BrokerInfo, distance: int)
      ensures View() == Status(my, myRoot, distance)
    {
      this.my, this.myRoot, this.distance := my, myRoot, distance;
    }

    function View(): Status
      reads this
    {
      Status(my, myRoot, distance)
    }
  }

  /** A bridge and the heads of its three port lists. */
  class Bridge {
    var designatedPorts: seq<PortRecord>
    var rootPorts: seq<PortRecord>
    var blockPorts: seq<PortRecord>

    /** `init_list` on each of the three lists: all start empty. */
    constructor ()
      ensures Lists() == PortLists([], [], [])
    {
      designatedPorts, rootPorts, blockPorts := [], [], [];
    }

    function Lists(): PortLists
      reads this
    {
      PortLists(designatedPorts, rootPorts, blockPorts)
    }
  }

  /**
   * `update__stp_properties`: validates `adv`, classifies its link and
   * updates `stp` and `bridge` in place, leaving exactly the state `Apply`
   * describes.
   */
  method UpdateStpProperties(stp: StpState, bridge: Bridge, adv: Advertisement) returns (rc: Rc)
    requires Defined(stp.View(), bridge.Lists(), adv)
    modifies stp, bridge
    ensures rc == Apply(old(stp.View()), old(bridge.Lists()), adv).rc
    ensures stp.View() == Apply(old(stp.View()), old(bridge.Lists()), adv).status
    ensures bridge.Lists() == Apply(old(stp.View()), old(bridge.Lists()), adv).lists
  {
    var myPid := stp.my.pid;
    if stp.my.address == adv.originAddress && stp.my.port == adv.originPort {
      return ErrStp;
    }
    if myPid == adv.originPid {
      return ErrStp;
    }
    var next := SetPorts(stp.View(), adv.rootPort, adv.rootPid, adv.distance, adv.originPort, adv.originPid);
    var temp := PortRecord(PlaceholderAddress, adv.originPort);
    match next {
      case DesignatedPort =>
        var present := InList(bridge.designatedPorts, None, temp.port);
        if !present {
          bridge.designatedPorts := Add(bridge.designatedPorts, temp);
        }
      case RootPort =>
        stp.myRoot := stp.myRoot.(pid := adv.rootPid);
        stp.myRoot := stp.myRoot.(port := adv.rootPort);
        stp.distance := adv.distance + 1;
        if adv.originId.Some? {
          stp.myRoot := stp.myRoot.(id := adv.originId);
        }
        if adv.originAddress.Some? {
          stp.myRoot := stp.myRoot.(address := adv.originAddress);
        }
        var present := InList(bridge.rootPorts, None, temp.port);
        if !present {
          var removal := RemoveNode(bridge.rootPorts);
          bridge.rootPorts := removal.rest;
          var oldRoot := removal.port;
          if oldRoot != 0 {
            temp := temp.(port := oldRoot);
            var blocked := InList(bridge.blockPorts, None, temp.port);
            if !blocked {
              temp := temp.(address := None);
              bridge.blockPorts := Add(bridge.blockPorts, temp);
            }
          }
          bridge.rootPorts := Add(bridge.rootPorts, temp);
        }
      case BlockedPort =>
        var present := InList(bridge.blockPorts, None, temp.port);
        if !present {
          bridge.blockPorts := Add(bridge.blockPorts, temp);
        }
      case NoPort =>
        return ErrStp;
    }
    rc := Success;
  }

  /** The protocol invariant on one bridge's lists: no duplicate ports where the source guards against them, at most one root port. */
  predicate ListsInvariant(ls: PortLists)
  {
    NoDupPorts(ls.designated) && NoDupPorts(ls.block) && |ls.root| <= 1
  }

  /**
   * `before` becomes `after` by registering `port` once: the port is present
   * afterwards, nothing else is added, no duplicate appears, and a port
   * already present leaves the list as it was.
   */
  ghost predicate RegistersOnce(before: seq<PortRecord>, after: seq<PortRecord>, port: int)
  {
    && HasPort(after, port)
    && (forall q :: HasPort(after, q) <==> q == port || HasPort(before, q))
    && (NoDupPorts(before) ==> NoDupPorts(after))
    && (HasPort(before, port) ==> after == before)
  }

  /**
   * A DESIGNATED or BLOCKED verdict registers the origin port once in the
   * designated or blocked list and changes neither the status nor the other
   * two lists.
   */
  lemma DesignatedOrBlockedEffect(st: Status, ls: PortLists, adv: Advertisement)
    requires !SelfLoop(st, adv) && !SamePid(st, adv)
    requires Verdict(st, adv) == DesignatedPort || Verdict(st, adv) == BlockedPort
    ensures Apply(st, ls, adv).rc == Success
    ensures Apply(st, ls, adv).status == st
    ensures Apply(st, ls, adv).lists.root == ls.root
    ensures Verdict(st, adv) == DesignatedPort ==>
      Apply(st, ls, adv).lists.block == ls.block &&
      RegistersOnce(ls.designated, Apply(st, ls, adv).lists.designated, adv.originPort)
    ensures Verdict(st, adv) == BlockedPort ==>
      Apply(st, ls, adv).lists.designated == ls.designated &&
      RegistersOnce(ls.block, Apply(st, ls, adv).lists.block, adv.originPort)
  {
  }

  /**
   * A ROOT verdict makes the claimed root the believed root, one hop further
   * than the advertised distance; `_id` and address follow the packet only
   * when it carries them, and this broker's own record is untouched.
   */
  lemma RootVerdictStatus(st: Status, ls: PortLists, adv: Advertisement)
    requires Defined(st, ls, adv)
    requires !SelfLoop(st, adv) && !SamePid(st, adv) && Verdict(st, adv) == RootPort
    ensures var s := Apply(st, ls, adv).status;
      && s.my == st.my
      && s.myRoot.pid == adv.rootPid && s.myRoot.port == adv.rootPort
      && s.distance == adv.distance + 1
      && s.myRoot.id == (if adv.originId.Some? then adv.originId else st.myRoot.id)
      && s.myRoot.address == (if adv.originAddress.Some? then adv.originAddress else st.myRoot.address)
  {
  }

  /**
   * A ROOT verdict with an empty root list finds no old root (`remove_node`
   * yields 0): the root list becomes exactly the origin port and the other
   * lists stay as they were. A ROOT verdict for a port already in the root
   * list leaves all three lists unchanged.
   */
  lemma RootVerdictLists(st: Status, ls: PortLists, adv: Advertisement)
    requires !SelfLoop(st, adv) && !SamePid(st, adv) && Verdict(st, adv) == RootPort
    requires ls.root == [] || HasPort(ls.root, adv.originPort)
    ensures ls.root == [] ==>
      Apply(st, ls, adv).lists == ls.(root := [PortRecord(PlaceholderAddress, adv.originPort)])
    ensures HasPort(ls.root, adv.originPort) ==> Apply(st, ls, adv).lists == ls
  {
    if ls.root == [] {
      assert RemoveNode(ls.root).port == 0;
      assert Add([], PortRecord(PlaceholderAddress, adv.originPort)) == [PortRecord(PlaceholderAddress, adv.originPort)];
    }
  }

  /**
   * Wherever the step is defined, it keeps the protocol invariant: the
   * designated and blocked lists never gain a duplicate port and the root
   * list never holds more than one entry.
   */
  lemma ApplyKeepsInvariant(st: Status, ls: PortLists, adv: Advertisement)
    requires Defined(st, ls, adv) && ListsInvariant(ls)
    ensures ListsInvariant(Apply(st, ls, adv).lists)
  {
    if !SelfLoop(st, adv) && !SamePid(st, adv) && Verdict(st, adv) == RootPort
       && !HasPort(ls.root, adv.originPort) {
      assert ls.root == [];
      RootVerdictLists(st, ls, adv);
    }
  }

  /** Two advertisements applied in turn to a bridge whose lists are all empty. */
  function TwoSteps(st: Status, adv1: Advertisement, adv2: Advertisement): (r: Outcome)
    requires Defined(Apply(st, PortLists([], [], []), adv1).status, Apply(st, PortLists([], [], []), adv1).lists, adv2)
  {
    var first := Apply(st, PortLists([], [], []), adv1);
    Apply(first.status, first.lists, adv2)
  }

  /**
   * The second root election faults: once a ROOT verdict has put one port in
   * the empty root list, a ROOT verdict for any other port reaches
   * `remove_node` with that one-element list.
   */
  lemma SecondRootElectionFaults(st: Status, adv1: Advertisement, adv2: Advertisement)
    requires !SelfLoop(st, adv1) && !SamePid(st, adv1) && Verdict(st, adv1) == RootPort
    requires var first := Apply(st, PortLists([], [], []), adv1);
      !SelfLoop(first.status, adv2) && !SamePid(first.status, adv2) && Verdict(first.status, adv2) == RootPort
    requires adv2.originPort != adv1.originPort
    ensures Apply(st, PortLists([], [], []), adv1).lists.root == [PortRecord(PlaceholderAddress, adv1.originPort)]
    ensures !Defined(Apply(st, PortLists([], [], []), adv1).status, Apply(st, PortLists([], [], []), adv1).lists, adv2)
  {
    RootVerdictLists(st, PortLists([], [], []), adv1);
    var first := Apply(st, PortLists([], [], []), adv1);
    assert first.lists.root[0].port == adv1.originPort;
    assert !HasPort(first.lists.root, adv2.originPort);
  }

  /**
   * With two or more root ports (a state the step itself cannot build), a
   * ROOT verdict for a new port puts the OLD root port back at the head of
   * the root list, twice over, and the origin port nowhere in it: line 263
   * overwrote the port in `temp` before line 270 added it.
   */
  lemma OldRootReAdded(st: Status, ls: PortLists, adv: Advertisement)
    requires !SelfLoop(st, adv) && !SamePid(st, adv) && Verdict(st, adv) == RootPort
    requires |ls.root| >= 2 && ls.root[0].port != 0 && !HasPort(ls.root, adv.originPort)
    ensures var root := Apply(st, ls, adv).lists.root;
      |root| == |ls.root| && root[0].port == ls.root[0].port && root[1].port == ls.root[0].port
    ensures !HasPort(Apply(st, ls, adv).lists.root, adv.originPort)
    ensures !NoDupPorts(Apply(st, ls, adv).lists.root)
  {
    var removal := RemoveNode(ls.root);
    var root := Apply(st, ls, adv).lists.root;
    assert root[1..] == removal.rest;
    assert root[0].port == root[1].port;
  }

  /**
   * The regression the roles are meant to rule out, as the step allows it:
   * a port elected ROOT and then classified BLOCKED on the next advertisement
   * sits in both the root list and the blocked list.
   */
  lemma RootThenBlockedSamePort(st: Status, adv1: Advertisement, adv2: Advertisement)
    requires !SelfLoop(st, adv1) && !SamePid(st, adv1) && Verdict(st, adv1) == RootPort
    requires var first := Apply(st, PortLists([], [], []), adv1);
      !SelfLoop(first.status, adv2) && !SamePid(first.status, adv2) && Verdict(first.status, adv2) == BlockedPort
    requires adv2.originPort == adv1.originPort
    ensures TwoSteps(st, adv1, adv2).rc == Success
    ensures HasPort(TwoSteps(st, adv1, adv2).lists.root, adv1.originPort)
    ensures HasPort(TwoSteps(st, adv1, adv2).lists.block, adv1.originPort)
  {
    RootVerdictLists(st, PortLists([], [], []), adv1);
    var first := Apply(st, PortLists([], [], []), adv1);
    assert first.lists.root[0].port == adv1.originPort;
    DesignatedOrBlockedEffect(first.status, first.lists, adv2);
  }
}
