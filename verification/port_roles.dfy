/**
 * The role decision of the bridge loop-prevention protocol (`set__ports`):
 * the local broker compares what it believes (root pid, distance to that
 * root, own pid) with a neighbour's advertisement and classifies the link.
 * Lower pids and shorter distances take precedence, as in the port-role
 * election of IEEE 802.1D, which this protocol resembles but does not follow.
 */
module PortRoles {
  import opened Wrappers

  /** A broker as the protocol state records it: address, `_id`, port and pid. */
  datatype BrokerInfo = BrokerInfo(address: Option<string>, id: Option<string>, port: int, pid: int)

  /** `struct mosquitto__stp`: this broker, the root it believes in and its distance to it. */
  datatype Status = Status(my: BrokerInfo, myRoot: BrokerInfo, distance: int)

  /** The verdicts `set__ports` can return. */
  datatype Role = DesignatedPort | RootPort | BlockedPort | NoPort

  /**
   * The reference order for root election: the pair (root pid, distance) `a`
   * is closer to the root than `b` when its root pid is lower, or the root
   * pids agree and its distance is shorter.
   */
  predicate CloserToRoot(aRootPid: int, aDistance: int, bRootPid: int, bDistance: int)
  {
    aRootPid < bRootPid || (aRootPid == bRootPid && aDistance < bDistance)
  }

  /**
   * `set__ports`: the role of the link on which an advertisement (claimed root
   * port and pid, distance, origin port and pid) arrived. The link becomes the
   * ROOT port exactly when the neighbour is closer to the root; otherwise a
   * strictly better local root makes it DESIGNATED, and with the same root
   * the pids decide between DESIGNATED and BLOCKED, NO_PORT meaning the pids
   * are equal. No port number takes part in the decision.
   */
  function SetPorts(status: Status, msgRootPort: int, msgRootPid: int, msgDistance: int,
                    msgPort: int, msgPid: int): (r: Role)
    ensures r == RootPort <==>
      CloserToRoot(msgRootPid, msgDistance, status.myRoot.pid, status.distance)
    ensures r == DesignatedPort <==>
      status.myRoot.pid < msgRootPid ||
      (status.myRoot.pid == msgRootPid && status.distance <= msgDistance && status.my.pid < msgPid)
    ensures r == BlockedPort <==>
      status.myRoot.pid == msgRootPid && status.distance <= msgDistance && status.my.pid > msgPid
    ensures r == NoPort <==>
      status.myRoot.pid == msgRootPid && status.distance <= msgDistance && status.my.pid == msgPid
  {
    var myRootPid, myDistance, myPid := status.myRoot.pid, status.distance, status.my.pid;
    if myRootPid < msgRootPid then
      DesignatedPort
    else if myRootPid == msgRootPid then
      if myDistance < msgDistance then
        if myPid < msgPid then DesignatedPort
        else if myPid > msgPid then BlockedPort
        else NoPort
      else if myDistance > msgDistance then
        RootPort
      else if myDistance == msgDistance then
        if myPid < msgPid then DesignatedPort
        else if myPid > msgPid then BlockedPort
        else NoPort
      else
        NoPort
    else if myRootPid > msgRootPid then
      RootPort
    else
      NoPort
  }

  /** Only pids and distances matter: ports, addresses and ids never change the verdict. */
  lemma SetPortsIgnoresPorts(s: Status, t: Status, rootPort: int, rootPort': int, rootPid: int,
                             distance: int, port: int, port': int, pid: int)
    requires s.myRoot.pid == t.myRoot.pid && s.distance == t.distance && s.my.pid == t.my.pid
    ensures SetPorts(s, rootPort, rootPid, distance, port, pid)
         == SetPorts(t, rootPort', rootPid, distance, port', pid)
  {
  }

  /**
   * The verdict NO_PORT is only possible when the advertisement carries this
   * broker's own pid.
   */
  lemma NoPortOnlyForOwnPid(s: Status, rootPort: int, rootPid: int, distance: int, port: int, pid: int)
    requires pid != s.my.pid
    ensures SetPorts(s, rootPort, rootPid, distance, port, pid) != NoPort
  {
  }

  /**
   * Two neighbours never both elect the link between them as their root
   * port: if `a` takes `b`'s advertisement as ROOT, `b` does not take `a`'s
   * as ROOT.
   */
  lemma RootElectionIsOneSided(a: Status, b: Status)
    requires SetPorts(a, b.myRoot.port, b.myRoot.pid, b.distance, b.my.port, b.my.pid) == RootPort
    ensures SetPorts(b, a.myRoot.port, a.myRoot.pid, a.distance, a.my.port, a.my.pid) != RootPort
  {
  }

  /**
   * On a link between two brokers with the same root at the same distance
   * and different pids, exactly one end designates the link and the other
   * blocks it: the lower pid designates.
   */
  lemma EqualPeersSplitTheLink(a: Status, b: Status)
    requires a.myRoot.pid == b.myRoot.pid && a.distance == b.distance && a.my.pid != b.my.pid
    ensures var ab := SetPorts(a, b.myRoot.port, b.myRoot.pid, b.distance, b.my.port, b.my.pid);
            var ba := SetPorts(b, a.myRoot.port, a.myRoot.pid, a.distance, a.my.port, a.my.pid);
            (ab == DesignatedPort && ba == BlockedPort) || (ab == BlockedPort && ba == DesignatedPort)
    ensures SetPorts(a, b.myRoot.port, b.myRoot.pid, b.distance, b.my.port, b.my.pid) == DesignatedPort
            <==> a.my.pid < b.my.pid
  {
  }

  /** A status with the given root pid, distance and own pid; ports and addresses are arbitrary. */
  function StatusOf(rootPid: int, distance: int, pid: int): Status
  {
    Status(BrokerInfo(None, None, 0, pid), BrokerInfo(None, None, 0, rootPid), distance)
  }

  /**
   * Worked cases: a better local root designates whatever the distances and
   * pids; with the same root at the same distance the higher local pid
   * blocks; a neighbour nearer the same root becomes the root port.
   */
  lemma SetPortsExamples(distance: int, pid: int, msgDistance: int, msgPid: int)
    ensures SetPorts(StatusOf(5, distance, pid), 0, 10, msgDistance, 0, msgPid) == DesignatedPort
    ensures SetPorts(StatusOf(5, 2, 100), 0, 5, 2, 0, 50) == BlockedPort
    ensures SetPorts(StatusOf(5, 3, pid), 0, 5, 1, 0, msgPid) == RootPort
  {
  }
}
