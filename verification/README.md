# Bridge loop prevention in mosquitto, modelled in Dafny

This project models the bridge loop-prevention engine of a fork of the
mosquitto MQTT broker (`lib/util_mosq.c`). Brokers linked by bridges exchange
BPDU-like advertisements. Each broker keeps a protocol status: its own
identity, the root broker it believes in and its distance to that root. Each
bridge keeps three port lists: designated, root and blocked. When an
advertisement arrives, `update__stp_properties` rejects self-loops and
duplicate pids. It then asks `set__ports` for the link's role and updates the
status and the lists. The same file also holds two small per-client counters,
which are modelled too: the 16-bit message-id generator and the saturating
inflight quotas.

Modules:

- `Wrappers` (`wrappers.dfy`): `Option`, which stands for a pointer that may be NULL.
- `PortList` (`port_list.dfy`): the linked port lists, modelled as the
  sequence of records reachable from a head pointer. Relinking a list
  computes the new sequence. `in_list` is a method with its loop.
- `PortRoles` (`port_roles.dfy`): `set__ports` as a pure function, with its
  verdict characterised by a reference "closer to the root" order.
- `StpUpdate` (`stp_update.dfy`): `update__stp_properties` twice over. `Apply`
  states the step on values. `UpdateStpProperties` performs it in place on a
  `StpState` object (`db->stp`) and a `Bridge` object (the three list heads).
  The file also holds the lemmas about the step as written.
- `StpIntended` (`stp_intended.dfy`): the same step with the root election
  the code evidently intends, and its invariant over any sequence of
  advertisements.
- `Counters` (`counters.dfy`): `mosquitto__mid_generate` and the four quota
  functions, as methods of a `Mosq` object.

The model follows the code as written:

- `remove_node` keeps the head and unlinks the second node, rather than removing the head.
- It returns 0 on an empty list.
- The ROOT branch re-adds the old root port to the root list.

Self-loop detection compares the two address pointers in the source. The
model compares the addresses as values (`Option<string>`, where `None` is
NULL). The record address the source writes as the string literal `"NULL"`
is modelled as `Some("NULL")`.

## Model

| member | source | states |
|---|---|---|
| `StpUpdate.Bridge.constructor` | lib/util_mosq.c:62-66 | `init_list` on each list: a new bridge starts with its designated, root and blocked lists empty |
| `PortList.Add` | lib/util_mosq.c:78-90 | prepending a record grows the list by one; afterwards a port is present exactly when it is the new record's port or was present before; a list without duplicate ports stays without them when the new port was absent |
| `PortList.InList` | lib/util_mosq.c:92-100 | the loop answers true exactly when some record carries the port; the address argument plays no part |
| `PortList.RemoveNode` | lib/util_mosq.c:102-119 | on an empty list it returns 0 and changes nothing; otherwise it returns the head's port, keeps the head, and the list loses one record without gaining a port; a one-element list is excluded because the source dereferences NULL there |
| `PortList.RemoveNodeDropsSecond` | lib/util_mosq.c:111-116 | after adding `b` then `c`, `remove_node` returns `c`'s port and leaves `c` at the head with `b` gone: the head is not removed |
| `PortList.DeleteRoot` | lib/util_mosq.c:121-129 | the result is the tail of a non-empty list: re-adding the old head restores the list |
| `PortList.DeleteRootUndoesAdd` | lib/util_mosq.c:121-129 | `delete_root` undoes `add` |
| `PortList.RemoveHead` | lib/util_mosq.c:102-119 | corrected counterpart of `remove_node`, used only by the intended root election: it removes the head; none exactly for an empty list, otherwise the head's port and a tail that re-adding the head restores |
| `PortList.RemoveHeadUndoesAdd` | lib/util_mosq.c:102-119 | head removal returns the port just added and the list as it was before |
| `PortRoles.SetPorts` | lib/util_mosq.c:131-186 | ROOT exactly when the advertised (root pid, distance) is closer to the root than ours; DESIGNATED exactly when our root pid is lower, or the roots agree, our distance is not longer and our pid is lower; BLOCKED exactly when the roots agree, our distance is not longer and our pid is higher; NO_PORT exactly when the same holds with equal pids; so the final fallback is unreachable |
| `PortRoles.SetPortsIgnoresPorts` | lib/util_mosq.c:137-141 | the ports, addresses and ids read or passed in never change the verdict; only pids and distances do |
| `PortRoles.NoPortOnlyForOwnPid` | lib/util_mosq.c:149-172 | NO_PORT requires the advertised origin pid to equal this broker's pid |
| `PortRoles.RootElectionIsOneSided` | lib/util_mosq.c:143-182 | two neighbours never both take the link between them as their root port |
| `PortRoles.EqualPeersSplitTheLink` | lib/util_mosq.c:163-172 | with the same root at the same distance and different pids, one end designates the link and the other blocks it, and the lower pid designates |
| `PortRoles.SetPortsExamples` | lib/util_mosq.c:143-182 | worked cases: root pid 5 against 10 designates; same root and distance with pid 100 against 50 blocks; distance 3 against 1 is ROOT |
| `StpUpdate.AddIfAbsent` | lib/util_mosq.c:273-279 | the `in_list` guard before `add`: the port is present afterwards, nothing else is added, no duplicate appears, and a port already present leaves the list unchanged |
| `StpUpdate.Apply` | lib/util_mosq.c:189-297 | the step fails with MOSQ_ERR_STP exactly for a self-loop (same address and port as this broker) or a duplicate pid, and then leaves the status and all three lists unchanged; the NO_PORT failure is therefore unreachable |
| `StpUpdate.UpdateStpProperties` | lib/util_mosq.c:189-297 | the in-place step returns the code `Apply` gives and leaves `db->stp` and the bridge's three lists exactly as `Apply` describes |
| `StpUpdate.DesignatedOrBlockedEffect` | lib/util_mosq.c:240-279 | a DESIGNATED or BLOCKED verdict succeeds and registers the origin port once in the designated or blocked list (no duplicate port, by port only); the status, the root list and the remaining list are unchanged |
| `StpUpdate.ElectRoot` | lib/util_mosq.c:246-255 | the status after a ROOT verdict: the believed root takes the claimed root pid and port, the distance is the advertised one plus one, `_id` and address follow the packet only when it carries them, and this broker's own record is unchanged |
| `StpUpdate.RootVerdictStatus` | lib/util_mosq.c:246-255 | a ROOT verdict sets the believed root's pid and port to the claimed ones and the distance to the advertised distance plus one; `_id` and address change only when the packet carries them; this broker's own record is unchanged |
| `StpUpdate.RootVerdictLists` | lib/util_mosq.c:256-271 | a ROOT verdict on an empty root list makes it exactly the origin port and leaves the other lists unchanged; one for a port already in the root list changes no list |
| `StpUpdate.ApplyKeepsInvariant` | lib/util_mosq.c:239-290 | wherever the step is defined, it keeps the designated and blocked lists free of duplicate ports and the root list at most one entry long |
| `StpUpdate.SecondRootElectionFaults` | lib/util_mosq.c:258-270 | after a first ROOT election on a fresh bridge, a ROOT verdict for another port reaches `remove_node` with a one-element list |
| `StpUpdate.OldRootReAdded` | lib/util_mosq.c:260-270 | with two or more root ports and a non-zero head port, a ROOT verdict for a new port leaves the old root port twice at the head of the root list and the origin port absent from it |
| `StpUpdate.RootThenBlockedSamePort` | lib/util_mosq.c:246-279 | a port elected ROOT and then classified BLOCKED ends up in both the root and the blocked list |
| `StpIntended.RootListsIntended` | lib/util_mosq.c:256-271 | the intended ROOT list update: for a port already present nothing changes; otherwise the root list becomes exactly the new port, the old root port (the head of the root list) is registered once in the blocked list and nothing else is added to it, and the designated list is untouched; an empty root list becomes exactly the new port |
| `StpIntended.ApplyIntended` | lib/util_mosq.c:189-297 | the intended step fails exactly where `Apply` fails, changes nothing then, and equals `Apply` for every verdict other than ROOT; after a valid ROOT verdict it succeeds with the root-elected status and the intended ROOT lists |
| `StpIntended.IntendedAgreesWhereDefined` | lib/util_mosq.c:256-271 | on lists satisfying the invariant, the intended step equals the source's step wherever the latter is defined |
| `StpIntended.IntendedKeepsInvariant` | lib/util_mosq.c:239-290 | the intended step keeps the invariant from every state satisfying it, without the `Defined` precondition |
| `StpIntended.RunIntendedKeepsInvariant` | lib/util_mosq.c:189-297 | after any sequence of advertisements the root list holds at most one entry and the other two lists no duplicate port |
| `StpIntended.IntendedSecondRootElection` | lib/util_mosq.c:256-271 | two ROOT elections on different ports of a fresh bridge leave the second port as the only root port and the first port blocked |
| `Counters.NextMid` | lib/util_mosq.c:479-481 | the next mid is never 0: `last + 1`, or 1 after 65535 |
| `Counters.MidAfterCycles` | lib/util_mosq.c:479-481 | from any start, `k` calls reach `(start - 1 + k) mod 65535 + 1` (for `k >= 1` when the start is 0, a fresh counter) |
| `Counters.MidsDistinct` | lib/util_mosq.c:479-481 | no mid repeats within 65535 consecutive calls, and the 65535th call returns to the start |
| `Counters.Mosq.MidGenerate` | lib/util_mosq.c:466-485 | `last_mid` advances to the next mid and the same non-zero value is returned |
| `Counters.IncrementedQuota` | lib/util_mosq.c:627-639 | the quota rises by one only while below the maximum, otherwise nothing changes; `0 <= quota <= maximum` is preserved |
| `Counters.DecrementedQuota` | lib/util_mosq.c:642-654 | the quota falls by one only while above 0, otherwise nothing changes; `0 <= quota <= maximum` is preserved |
| `Counters.QuotaRoundTrip` | lib/util_mosq.c:627-654 | away from the bounds, a decrement undoes an increment and an increment undoes a decrement |
| `Counters.Mosq.IncrementReceiveQuota` | lib/util_mosq.c:627-632 | `msgs_in` becomes its incremented quota; `msgs_out` and `last_mid` are outside the frame |
| `Counters.Mosq.IncrementSendQuota` | lib/util_mosq.c:634-639 | `msgs_out` becomes its incremented quota; nothing else changes |
| `Counters.Mosq.DecrementReceiveQuota` | lib/util_mosq.c:642-647 | `msgs_in` becomes its decremented quota; nothing else changes |
| `Counters.Mosq.DecrementSendQuota` | lib/util_mosq.c:649-654 | `msgs_out` becomes its decremented quota; nothing else changes |

## Left out

- The `atoi` parsing of the packet's string fields: the advertisement arrives as parsed integers.
- Integer width of pids, ports and distances: they are unbounded; `root_distance + 1` overflowing a C `int` is not modelled.
- The OOM paths: `add` calling `exit`, and `remove_node` returning `MOSQ_ERR_NOMEM`. The node `remove_node` allocates and then leaks is also left out.
- `print_list` and every `log__printf` call: output only. This includes the `_id` comparison at line 215, which only logs.
- The `NO_CHANGE` and `default` cases of the switch: `set__ports` never returns those codes, so the verdict type has exactly four values.
- Aliasing between `db->stp->my` and `db->stp->my_root`: the model keeps them as separate records. Their initialisation is not part of this model.
- The mutex in `mosquitto__mid_generate` and the per-bridge and status locking: the model is sequential.
- The width of the quota fields: quota and maximum are natural numbers. Neither function can leave `[0, maximum]` or wrap.
- `mosquitto__check_keepalive`: clocks, sockets and callbacks.
- `mosquitto__fopen`: filesystem and ACL calls.
- `util__random_bytes`: the OS and OpenSSL random sources.
- `mosquitto__hex2bin` and `mosquitto__hex2bin_sha1`: OpenSSL big-number calls.
- The commented-out code after `update__stp_properties`.
- `lib/util_mosq.h` holds only prototypes.
- `StpUpdate.UpdateStpProperties`: requires `Defined`, which excludes the NULL dereference in `remove_node`. The source has no behaviour to model there.

## Findings

| source | as written | input that shows it | evidently intended | confidence | as-written member | corrected member |
|---|---|---|---|---|---|---|
| lib/util_mosq.c:111-116 | `remove_node` reads `head->next->next` through a NULL `head->next` when the list has one node | a bridge whose root list holds one port (after its first ROOT election) receives a ROOT-classified advertisement from another port | the old root port moves to the blocked list and the new port becomes the only root port | high; not executed | `StpUpdate.SecondRootElectionFaults` | `StpIntended.IntendedSecondRootElection` |
| lib/util_mosq.c:263-270 | `temp.port` is overwritten with the old root port before `temp` is prepended to the root list, so the old root is re-added and the origin port is never added | root list `[h, x]` with `h` non-zero, and a ROOT verdict for a port `p` not in it: the root list becomes `[h, h]` and lacks `p` | the root list becomes `[p]` and `h` is blocked | medium; not executed (the two-entry root list is not reachable through this step alone) | `StpUpdate.OldRootReAdded` | `StpIntended.RootListsIntended` |
