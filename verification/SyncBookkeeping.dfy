/** The loops of sync_devices and confirm_devices over the nornir results. */
module SyncBookkeeping {
  import opened SyncProtocol

  /** The hosts of a result in the order nornir returns them. */
  ghost predicate Lists(order: seq<Host>, hosts: set<Host>) {
    && (forall h :: h in order <==> h in hosts)
    && (forall i, j :: 0 <= i < j < |order| ==> order[i] != order[j])
  }

  ghost function AsSet(hosts: seq<Host>): set<Host> { set h | h in hosts }

  lemma NextHost(order: seq<Host>, i: nat)
    requires i < |order|
    ensures AsSet(order[..i + 1]) == AsSet(order[..i]) + {order[i]}
  {
    assert order[..i + 1] == order[..i] + [order[i]];
  }

  /** Split the results into hosts with a diff and hosts without; failed hosts are in neither list. */
  method ClassifyHosts(order: seq<Host>, tasks: map<Host, Task>) returns (changed: seq<Host>, emptyDiff: seq<Host>)
    requires Lists(order, tasks.Keys)
    ensures Lists(changed, ChangedHosts(tasks)) && Lists(emptyDiff, UnchangedHosts(tasks))
  {
    changed, emptyDiff := [], [];
    for i := 0 to |order|
      invariant forall h :: h in changed <==> h in order[..i] && tasks[h].Changed?
      invariant forall h :: h in emptyDiff <==> h in order[..i] && tasks[h].Unchanged?
      invariant forall k, l :: 0 <= k < l < |changed| ==> changed[k] != changed[l]
      invariant forall k, l :: 0 <= k < l < |emptyDiff| ==> emptyDiff[k] != emptyDiff[l]
    {
      var h := order[i];
      assert h !in order[..i] && order[..i + 1] == order[..i] + [h];
      if tasks[h].Changed? {
        changed := changed + [h];
      } else if tasks[h].Unchanged? {
        emptyDiff := emptyDiff + [h];
      }
    }
    assert order[..|order|] == order;
  }

  lemma MarkNext(start: map<Host, Device>, done: set<Host>, seen: set<Host>, h: Host)
    requires h !in seen
    ensures Mark(Mark(start, done * (seen + {h}), true), (seen + {h}) - done, false)
            == Mark(Mark(Mark(start, done * seen, true), seen - done, false), {h}, h in done)
  {
  }

  class DeviceTable {
    var devices: map<Host, Device>

    constructor (initial: map<Host, Device>)
      ensures devices == initial
    {
      devices := initial;
    }

    method SetSynchronized(h: Host, value: bool)
      requires h in devices
      modifies this
      ensures devices == Mark(old(devices), {h}, value)
    {
      devices := devices[h := devices[h].(synchronized := value)];
    }

    /** A live run marks the hosts without a diff, and unless a confirm job follows also those with one. */
    method MarkAfterPush(changed: seq<Host>, emptyDiff: seq<Host>, mode: Mode)
      requires AsSet(changed) + AsSet(emptyDiff) <= devices.Keys
      modifies this
      ensures devices == Mark(old(devices), AsSet(emptyDiff) + (if mode != 2 then AsSet(changed) else {}), true)
    {
      ghost var start := devices;
      assert Mark(start, {}, true) == start;
      for i := 0 to |changed|
        invariant devices == Mark(start, if mode != 2 then AsSet(changed[..i]) else {}, true)
      {
        NextHost(changed, i);
        assert changed[i] in AsSet(changed);
        if mode != 2 { SetSynchronized(changed[i], true); }
      }
      assert changed[..|changed|] == changed;
      ghost var before := if mode != 2 then AsSet(changed) else {};
      for i := 0 to |emptyDiff|
        invariant devices == Mark(start, before + AsSet(emptyDiff[..i]), true)
      {
        NextHost(emptyDiff, i);
        assert emptyDiff[i] in AsSet(emptyDiff);
        SetSynchronized(emptyDiff[i], true);
      }
      assert emptyDiff[..|emptyDiff|] == emptyDiff;
    }

    /** The confirm job marks what it confirmed and takes the mark from what failed. */
    method MarkAfterConfirm(order: seq<Host>, tasks: map<Host, ConfirmTask>)
      requires Lists(order, tasks.Keys) && tasks.Keys <= devices.Keys
      modifies this
      ensures var done := set h | h in tasks && tasks[h].CDone?;
              devices == Mark(Mark(old(devices), done, true), tasks.Keys - done, false)
    {
      ghost var start := devices;
      ghost var done := set h | h in tasks && tasks[h].CDone?;
      for i := 0 to |order|
        invariant devices == Mark(Mark(start, done * AsSet(order[..i]), true), AsSet(order[..i]) - done, false)
      {
        NextHost(order, i);
        assert order[i] !in AsSet(order[..i]);
        MarkNext(start, done, AsSet(order[..i]), order[i]);
        if tasks[order[i]].CDone? {
          SetSynchronized(order[i], true);
        } else {
          SetSynchronized(order[i], false);
        }
      }
      assert order[..|order|] == order;
      assert done * AsSet(order) == done && AsSet(order) - done == tasks.Keys - done;
    }
  }
}
