/**
 The kernel NVMe-oF target: repairing an export and switching the authorized host, as
 sequences of configfs calls.

 Every call may fail without effect: `faults` are the positions, counted by `calls`, of the
 calls that do, reads included.  `history` records the tree after each changing call, so that
 contracts can speak about everything an initiator could ever have observed.  A link on the port is
 identified with the name of the subsystem it resolves to.
 */
module KernelTarget {
  import opened Options
  import opened HostAccess
  import Text

  datatype Namespace = Namespace(devicePath: Option<string>, enable: Option<string>)

  datatype Subsystem = Subsystem(allowAnyHost: Option<string>, hosts: set<string>, namespaces: map<string, Namespace>)

  datatype Entry = Link(target: string) | Directory

  /** The subsystems, and on port 1 its attributes and its entries. */
  datatype Tree = Tree(subsystems: map<string, Subsystem>, port: map<string, string>, links: map<string, Entry>)

  datatype Outcome = Done | AlreadyExists | NotFound | Failed

  // ---------------------------------------------------------------- observations

  /** The attributes of the port, in the order in which they are written. */
  type Attributes = seq<(string, string)>

  predicate PortConfigured(port: map<string, string>, desired: Attributes) {
    forall i :: 0 <= i < |desired| ==> desired[i].0 in port && port[desired[i].0] == desired[i].1
  }

  predicate DistinctNames(desired: Attributes) {
    forall i, j :: 0 <= i < j < |desired| ==> desired[i].0 != desired[j].0
  }

  predicate NamespaceExact(s: Subsystem, block: string) {
    s.namespaces == map["1" := Namespace(Some(block), Some("1"))]
  }

  predicate LinkMatches(links: map<string, Entry>, nqn: string) {
    nqn in links && links[nqn] == Link(nqn)
  }

  predicate AllSymlinks(links: map<string, Entry>) {
    forall n :: n in links ==> links[n].Link?
  }

  // ---------------------------------------------------------------- configfs

  /** How many of `count` calls from position `from` on succeed before the first fault. */
  function Successes(faults: set<nat>, from: nat, count: nat): (k: nat)
    ensures k <= count
    ensures forall i :: from <= i < from + k ==> i !in faults
    ensures k < count ==> from + k in faults
    decreases count
  {
    if count == 0 || from in faults then 0 else 1 + Successes(faults, from + 1, count - 1)
  }

  lemma SuccessesIs(faults: set<nat>, from: nat, count: nat, k: nat)
    requires k <= count && (forall i :: from <= i < from + k ==> i !in faults) && (k < count ==> from + k in faults)
    ensures Successes(faults, from, count) == k
  {
    var j := Successes(faults, from, count);
    assert j < k ==> from + j !in faults;
    assert k < j ==> from + k !in faults;
  }

  class ConfigFs {
    const faults: set<nat>
    var calls: nat
    var subsystems: map<string, Subsystem>
    var port: map<string, string>
    var links: map<string, Entry>
    ghost var history: seq<Tree>

    constructor (t: Tree, faults: set<nat>)
      ensures Snapshot() == t && this.faults == faults && calls == 0 && history == []
    {
      this.subsystems, this.port, this.links := t.subsystems, t.port, t.links;
      this.faults, this.calls, this.history := faults, 0, [];
    }

    ghost function Snapshot(): Tree
      reads this
    {
      Tree(subsystems, port, links)
    }

    predicate Reliable() {
      faults == {}
    }

    /** Whether the next call gets through; also models a cancelled context. */
    method Available() returns (ok: bool)
      modifies this`calls
      ensures ok <==> old(calls) !in faults
      ensures calls == old(calls) + 1
    {
      ok := calls !in faults;
      calls := calls + 1;
    }

    method MakeSubsystem(nqn: string) returns (r: Outcome)
      modifies this`subsystems, this`history, this`calls
      ensures r == Done ==> nqn !in old(subsystems) && subsystems == old(subsystems)[nqn := Subsystem(None, {}, map[])]
      ensures r != Done ==> subsystems == old(subsystems)
      ensures r == AlreadyExists ==> nqn in subsystems
      ensures Reliable() ==> r == Done || r == AlreadyExists
      ensures r != NotFound
      ensures history == old(history) + [Snapshot()]
    {
      var ok := Available();
      if !ok {
        r := Failed;
      } else if nqn in subsystems {
        r := AlreadyExists;
      } else {
        subsystems, r := subsystems[nqn := Subsystem(None, {}, map[])], Done;
      }
      history := history + [Snapshot()];
    }

    /** rmdir of a subsystem refuses while it is linked, allows a host or has a namespace. */
    method RemoveSubsystem(nqn: string) returns (r: Outcome)
      modifies this`subsystems, this`history, this`calls
      ensures r == Done ==> nqn in old(subsystems) && subsystems == old(subsystems) - {nqn}
      ensures r != Done ==> subsystems == old(subsystems)
      ensures r == NotFound ==> nqn !in subsystems
      ensures Reliable() && nqn !in links && nqn in old(subsystems) && old(subsystems[nqn].hosts) == {} && old(subsystems[nqn].namespaces) == map[] ==> r == Done
      ensures history == old(history) + [Snapshot()]
    {
      var ok := Available();
      if !ok {
        r := Failed;
      } else if nqn !in subsystems {
        r := NotFound;
      } else if subsystems[nqn].hosts != {} || subsystems[nqn].namespaces != map[] || nqn in links {
        r := Failed;
      } else {
        subsystems, r := subsystems - {nqn}, Done;
      }
      history := history + [Snapshot()];
    }

    /** A write, mkdir, rmdir or symlink below an existing subsystem. */
    method Replace(nqn: string, s: Subsystem) returns (r: Outcome)
      requires nqn in subsystems
      modifies this`subsystems, this`history, this`calls
      ensures r == Done || r == Failed
      ensures subsystems == old(subsystems)[nqn := if r == Done then s else old(subsystems[nqn])]
      ensures Reliable() ==> r == Done
      ensures history == old(history) + [Snapshot()]
    {
      var ok := Available();
      r := if ok then Done else Failed;
      subsystems := subsystems[nqn := if ok then s else subsystems[nqn]];
      history := history + [Snapshot()];
    }

    method WritePort(attribute: string, value: string) returns (r: Outcome)
      modifies this`port, this`history, this`calls
      ensures r == if old(calls) in faults then Failed else Done
      ensures port == if r == Done then old(port)[attribute := value] else old(port)
      ensures calls == old(calls) + 1 && history == old(history) + [Snapshot()]
    {
      var ok := Available();
      r := if ok then Done else Failed;
      port := if ok then port[attribute := value] else port;
      history := history + [Snapshot()];
    }

    method RemoveLink(nqn: string) returns (r: Outcome)
      modifies this`links, this`history, this`calls
      ensures r == if old(calls) in faults then Failed else if nqn !in old(links) then NotFound else if old(links[nqn]).Directory? then Failed else Done
      ensures links == if r == Done then old(links) - {nqn} else old(links)
      ensures calls == old(calls) + 1 && history == old(history) + [Snapshot()]
    {
      var ok := Available();
      if !ok {
        r := Failed;
      } else if nqn !in links {
        r := NotFound;
      } else if links[nqn].Directory? {
        r := Failed;
      } else {
        links, r := links - {nqn}, Done;
      }
      history := history + [Snapshot()];
    }

    method MakeLink(nqn: string, target: string) returns (r: Outcome)
      modifies this`links, this`history, this`calls
      ensures r == if old(calls) in faults then Failed else if nqn in old(links) then AlreadyExists else Done
      ensures links == if r == Done then old(links)[nqn := Link(target)] else old(links)
      ensures calls == old(calls) + 1 && history == old(history) + [Snapshot()]
    {
      var ok := Available();
      if !ok {
        r := Failed;
      } else if nqn in links {
        r := AlreadyExists;
      } else {
        links, r := links[nqn := Link(target)], Done;
      }
      history := history + [Snapshot()];
    }
  }

  // ---------------------------------------------------------------- shared port

  /** Every entry of `m'` is an entry of `m`. */
  ghost predicate Within<V>(m': map<string, V>, m: map<string, V>) {
    forall n :: n in m' ==> n in m && m'[n] == m[n]
  }

  /** Since `from`, no subsystem changed and the port never carried a link that `links` did not have. */
  ghost predicate LinksWithin(history: seq<Tree>, from: nat, subsystems: map<string, Subsystem>, links: map<string, Entry>) {
    forall k :: from <= k < |history| ==> history[k].subsystems == subsystems && Within(history[k].links, links)
  }

  predicate Unrepeated(names: seq<string>) {
    forall i, j :: 0 <= i < j < |names| ==> names[i] != names[j]
  }

  /** The names are those of the links, each once. */
  ghost predicate Lists(names: seq<string>, links: map<string, Entry>) {
    Unrepeated(names) && |names| == |links| && forall n :: n in names <==> n in links
  }

  /** The calls that writing `count` attributes takes: up to and including the first that fails. */
  function WriteCalls(faults: set<nat>, from: nat, count: nat): nat {
    var k := Successes(faults, from, count);
    if k < count then k + 1 else count
  }

  /**
   A rewrite of the port with `links` links and `attributes` attributes, whose first removal is call
   number `start`, loses links exactly when a removal fails after another one succeeded, or
   when all succeeded and a restoration fails.
   */
  predicate LosesLinks(faults: set<nat>, start: nat, links: nat, attributes: nat) {
    var removed := Successes(faults, start, links);
    if removed < links then removed > 0
    else Successes(faults, start + links + WriteCalls(faults, start + links, attributes), links) < links
  }

  /** A failing attribute write alone costs no link: the deferred restoration brings all back. */
  lemma FailedWriteLosesNothing(faults: set<nat>, start: nat, links: nat, attributes: nat)
    requires forall i :: i in faults ==> start + links <= i < start + links + WriteCalls(faults, start + links, attributes)
    ensures !LosesLinks(faults, start, links, attributes)
  {
  }

  /** With two links or more, one failing removal is enough; with any, one failing restoration is. */
  lemma OneFaultCanLoseLinks(start: nat, links: nat, attributes: nat)
    requires links > 0
    ensures links > 1 ==> LosesLinks({start + 1}, start, links, attributes)
    ensures LosesLinks({start + links + attributes}, start, links, attributes)
  {
    if links > 1 {
      SuccessesIs({start + 1}, start, links, 1);
    }
    var last := {start + links + attributes};
    SuccessesIs(last, start, links, links);
    SuccessesIs(last, start + links, attributes, attributes);
    SuccessesIs(last, start + links + attributes, links, 0);
  }

  class KernelPort {
    const fs: ConfigFs

    constructor (fs: ConfigFs)
      ensures this.fs == fs
    {
      this.fs := fs;
    }

    /** Reads the attributes one by one; a read that fails counts as a mismatch. */
    method Matches(desired: Attributes) returns (configured: bool)
      modifies fs`calls
      ensures configured ==> PortConfigured(fs.port, desired)
      ensures fs.Reliable() && PortConfigured(fs.port, desired) ==> configured
      ensures fs.calls >= old(fs.calls)
      ensures desired != [] && desired[0].0 !in fs.port ==> !configured && fs.calls == old(fs.calls) + 1
    {
      for i := 0 to |desired|
        invariant fs.calls >= old(fs.calls) && PortConfigured(fs.port, desired[..i])
        invariant i == 0 ==> fs.calls == old(fs.calls)
        invariant i > 0 ==> desired[0].0 in fs.port
      {
        var readable := fs.Available();
        if !readable || desired[i].0 !in fs.port || fs.port[desired[i].0] != desired[i].1 {
          return false;
        }
        assert desired[..i + 1] == desired[..i] + [desired[i]];
      }
      assert desired[..|desired|] == desired;
      configured := true;
    }

    /** The names on the port, each once. */
    method ListLinks() returns (names: seq<string>)
      ensures Lists(names, fs.links)
    {
      names := [];
      var todo := fs.links.Keys;
      while todo != {}
        invariant todo <= fs.links.Keys && Unrepeated(names) && |names| + |todo| == |fs.links.Keys|
        invariant forall n :: n in names <==> n in fs.links && n !in todo
        decreases todo
      {
        var n :| n in todo;
        names, todo := names + [n], todo - {n};
      }
    }

    method DisconnectAll(names: seq<string>) returns (ok: bool)
      requires Lists(names, fs.links) && AllSymlinks(fs.links)
      modifies fs`links, fs`history, fs`calls
      ensures Within(fs.links, old(fs.links))
      ensures var removed := Successes(fs.faults, old(fs.calls), |names|);
              && (ok <==> removed == |names|)
              && (fs.links == old(fs.links) <==> removed == 0)
              && (ok ==> fs.links == map[] && fs.calls == old(fs.calls) + |names|)
      ensures old(fs.history) <= fs.history && LinksWithin(fs.history, |old(fs.history)|, fs.subsystems, old(fs.links))
    {
      for i := 0 to |names|
        invariant Within(fs.links, old(fs.links))
        invariant forall j :: 0 <= j < |names| ==> (names[j] in fs.links <==> i <= j)
        invariant i == 0 ==> fs.links == old(fs.links)
        invariant fs.calls == old(fs.calls) + i
        invariant forall j :: old(fs.calls) <= j < old(fs.calls) + i ==> j !in fs.faults
        invariant old(fs.history) <= fs.history && LinksWithin(fs.history, |old(fs.history)|, fs.subsystems, old(fs.links))
      {
        var r := fs.RemoveLink(names[i]);
        if r != Done {
          SuccessesIs(fs.faults, old(fs.calls), |names|, i);
          assert i > 0 ==> names[0] in old(fs.links) && names[0] !in fs.links;
          return false;
        }
      }
      SuccessesIs(fs.faults, old(fs.calls), |names|, |names|);
      assert fs.links == map[];
      ok := true;
    }

    /** Stops at the first link that cannot be put back. */
    method Restore(names: seq<string>, saved: map<string, Entry>) returns (ok: bool)
      requires fs.links == map[] && Lists(names, saved) && AllSymlinks(saved)
      modifies fs`links, fs`history, fs`calls
      ensures fs.links == saved <==> ok
      ensures ok <==> Successes(fs.faults, old(fs.calls), |names|) == |names|
      ensures Within(fs.links, saved)
      ensures old(fs.history) <= fs.history && LinksWithin(fs.history, |old(fs.history)|, fs.subsystems, saved)
    {
      for i := 0 to |names|
        invariant Within(fs.links, saved)
        invariant forall j :: 0 <= j < |names| ==> (names[j] in fs.links <==> j < i)
        invariant fs.calls == old(fs.calls) + i
        invariant forall j :: old(fs.calls) <= j < old(fs.calls) + i ==> j !in fs.faults
        invariant old(fs.history) <= fs.history && LinksWithin(fs.history, |old(fs.history)|, fs.subsystems, saved)
      {
        var r := fs.MakeLink(names[i], saved[names[i]].target);
        if r != Done && r != AlreadyExists {
          SuccessesIs(fs.faults, old(fs.calls), |names|, i);
          return false;
        }
      }
      SuccessesIs(fs.faults, old(fs.calls), |names|, |names|);
      ok := true;
    }

    method WriteAttributes(desired: Attributes) returns (ok: bool)
      requires fs.links == map[] && DistinctNames(desired)
      modifies fs`port, fs`history, fs`calls
      ensures ok ==> PortConfigured(fs.port, desired)
      ensures ok <==> Successes(fs.faults, old(fs.calls), |desired|) == |desired|
      ensures fs.calls == old(fs.calls) + WriteCalls(fs.faults, old(fs.calls), |desired|)
      ensures old(fs.history) <= fs.history && LinksWithin(fs.history, |old(fs.history)|, fs.subsystems, map[])
    {
      for i := 0 to |desired|
        invariant forall j :: 0 <= j < i ==> desired[j].0 in fs.port && fs.port[desired[j].0] == desired[j].1
        invariant fs.calls == old(fs.calls) + i
        invariant forall j :: old(fs.calls) <= j < old(fs.calls) + i ==> j !in fs.faults
        invariant old(fs.history) <= fs.history && LinksWithin(fs.history, |old(fs.history)|, fs.subsystems, map[])
      {
        var r := fs.WritePort(desired[i].0, desired[i].1);
        if r != Done {
          SuccessesIs(fs.faults, old(fs.calls), |desired|, i);
          return false;
        }
      }
      SuccessesIs(fs.faults, old(fs.calls), |desired|, |desired|);
      ok := true;
    }

    /**
     The port is shared, so its attributes are rewritten with every link down and the same
     links afterwards.  `start` is the position of the first removal, if it comes to that.
     Links are lost exactly when a removal fails after another one succeeded or a
     restoration fails; nothing else costs a link, and no link ever appears.
     */
    method Ensure(desired: Attributes) returns (ok: bool, ghost start: nat)
      requires DistinctNames(desired)
      modifies fs`port, fs`links, fs`history, fs`calls
      ensures ok ==> PortConfigured(fs.port, desired) && fs.links == old(fs.links)
      ensures fs.Reliable() && PortConfigured(old(fs.port), desired) ==> ok && fs.port == old(fs.port)
      ensures fs.Reliable() && AllSymlinks(old(fs.links)) ==> ok
      ensures start == 0 ==> fs.links == old(fs.links) && fs.port == old(fs.port)
      ensures AllSymlinks(old(fs.links)) && desired != [] && desired[0].0 !in old(fs.port) && old(fs.calls) + 1 !in fs.faults ==> start == old(fs.calls) + 2
      ensures start > 0 ==> AllSymlinks(old(fs.links)) && (fs.links != old(fs.links) <==> LosesLinks(fs.faults, start, |old(fs.links)|, |desired|))
      ensures Within(fs.links, old(fs.links))
      ensures old(fs.history) <= fs.history && LinksWithin(fs.history, |old(fs.history)|, fs.subsystems, old(fs.links))
    {
      start := 0;
      var configured := Matches(desired);
      if configured {
        return true, 0;
      }
      var saved := fs.links;
      var listed := fs.Available();
      if !listed || !AllSymlinks(saved) {
        return false, 0;
      }
      var names := ListLinks();
      ok, start := Rewrite(names, desired);
    }

    /** Disconnect, write, restore: what happens once the port is known to differ. */
    method Rewrite(names: seq<string>, desired: Attributes) returns (ok: bool, ghost start: nat)
      requires DistinctNames(desired) && Lists(names, fs.links) && AllSymlinks(fs.links) && fs.calls > 0
      modifies fs`port, fs`links, fs`history, fs`calls
      ensures start == old(fs.calls)
      ensures ok ==> PortConfigured(fs.port, desired)
      ensures fs.Reliable() ==> ok
      ensures fs.links != old(fs.links) <==> LosesLinks(fs.faults, start, |names|, |desired|)
      ensures ok ==> fs.links == old(fs.links)
      ensures Within(fs.links, old(fs.links))
      ensures old(fs.history) <= fs.history && LinksWithin(fs.history, |old(fs.history)|, fs.subsystems, old(fs.links))
    {
      start := fs.calls;
      var saved := fs.links;
      var disconnected := DisconnectAll(names);
      if !disconnected {
        return false, start;
      }
      ok := WriteAndRestore(names, saved, desired);
    }

    /** With all links down: write the attributes and, whatever came of it, put the links back. */
    method WriteAndRestore(names: seq<string>, saved: map<string, Entry>, desired: Attributes) returns (ok: bool)
      requires DistinctNames(desired) && fs.links == map[] && Lists(names, saved) && AllSymlinks(saved)
      modifies fs`port, fs`links, fs`history, fs`calls
      ensures ok ==> PortConfigured(fs.port, desired) && fs.links == saved
      ensures fs.Reliable() ==> ok
      ensures fs.links == saved <==>
        Successes(fs.faults, old(fs.calls) + WriteCalls(fs.faults, old(fs.calls), |desired|), |names|) == |names|
      ensures Within(fs.links, saved)
      ensures old(fs.history) <= fs.history && LinksWithin(fs.history, |old(fs.history)|, fs.subsystems, saved)
    {
      var written := WriteAttributes(desired);
      var restored := Restore(names, saved);
      ok := written && restored;
    }
  }

  /** A port with two links and no attributes, whose second removal fails: a link is lost. */
  method RewriteCanLoseLink(desired: Attributes) returns (ok: bool, fs: ConfigFs)
    requires desired != [] && DistinctNames(desired)
    ensures !ok && fs.links != map["x" := Link("x"), "y" := Link("y")]
  {
    var links := map["x" := Link("x"), "y" := Link("y")];
    fs := new ConfigFs(Tree(map[], map[], links), {3});
    var port := new KernelPort(fs);
    assert links.Keys == {"x", "y"};
    OneFaultCanLoseLinks(2, 2, |desired|);
    ghost var start;
    ok, start := port.Ensure(desired);
    assert |links| == |links.Keys| == 2;
  }

  // ---------------------------------------------------------------- one export

  /** What CheckExport accepts. */
  predicate Healthy(t: Tree, nqn: string, block: string, desired: Attributes) {
    && nqn in t.subsystems
    && NamespaceExact(t.subsystems[nqn], block)
    && t.subsystems[nqn].allowAnyHost == Some("0")
    && PortConfigured(t.port, desired)
    && LinkMatches(t.links, nqn)
  }

  /** Unexporting disables and removes namespace 1 only. */
  predicate Removable(s: Subsystem) {
    s.allowAnyHost.Some? && s.namespaces.Keys <= {"1"}
  }

  /** Only the namespaces of `nqn` differ. */
  ghost predicate OnlyNamespaces(m: map<string, Subsystem>, m': map<string, Subsystem>, nqn: string) {
    && SameExcept(m, m', nqn)
    && nqn in m && nqn in m'
    && m'[nqn].allowAnyHost == m[nqn].allowAnyHost && m'[nqn].hosts == m[nqn].hosts
  }

  /** Since `from`, the subsystem was off the port. */
  ghost predicate Unlinked(history: seq<Tree>, from: nat, nqn: string) {
    forall k :: from <= k < |history| ==> nqn !in history[k].links
  }

  /** Since `from`, the subsystem was on the port only with these namespaces or the repaired one. */
  ghost predicate NeverHalfRepaired(history: seq<Tree>, from: nat, nqn: string, before: map<string, Namespace>, block: string) {
    forall k :: from <= k < |history| && nqn in history[k].links && nqn in history[k].subsystems ==>
      history[k].subsystems[nqn].namespaces == before || NamespaceExact(history[k].subsystems[nqn], block)
  }

  /** Where initiators reach the port; `family` is None for an address that cannot be used. */
  datatype Portal = Portal(family: Option<string>, address: string, service: int)

  predicate ValidRequest(block: string, portal: Portal) {
    portal.family.Some? && 1 <= portal.service <= 65535 && block != ""
  }

  function PortAttributes(portal: Portal): (attributes: Attributes)
    requires portal.family.Some?
    ensures DistinctNames(attributes)
  {
    assert "addr_adrfam"[5] == 'a' && "addr_trtype"[5] == 't' && "addr_trsvcid"[5] == 't' && "addr_traddr"[5] == 't';
    assert "addr_trtype"[7] == 't' && "addr_trsvcid"[7] == 's' && "addr_traddr"[7] == 'a';
    [("addr_adrfam", portal.family.value), ("addr_trtype", "rdma"),
     ("addr_trsvcid", if portal.service < 0 then "-" + Text.Decimal(0 - portal.service) else Text.Decimal(portal.service)),
     ("addr_traddr", portal.address)]
  }

  /** The files an export check reads. */
  datatype File = AllowAnyFile | DeviceFile | EnableFile | PortFile(attribute: string)

  function Contents(t: Tree, nqn: string, f: File): Option<string> {
    if f.PortFile? then (if f.attribute in t.port then Some(t.port[f.attribute]) else None)
    else if nqn !in t.subsystems then None
    else if f.AllowAnyFile? then t.subsystems[nqn].allowAnyHost
    else if "1" !in t.subsystems[nqn].namespaces then None
    else if f.DeviceFile? then t.subsystems[nqn].namespaces["1"].devicePath
    else t.subsystems[nqn].namespaces["1"].enable
  }

  function RequiredValues(block: string, desired: Attributes): seq<(File, string)> {
    [(AllowAnyFile, "0"), (DeviceFile, block), (EnableFile, "1")] + seq(|desired|, i requires 0 <= i < |desired| => (PortFile(desired[i].0), desired[i].1))
  }

  ghost predicate ValuesMatch(t: Tree, nqn: string, required: seq<(File, string)>) {
    forall i :: 0 <= i < |required| ==> Contents(t, nqn, required[i].0) == Some(required[i].1)
  }

  /** The values, the one namespace and the link together are exactly a healthy export. */
  lemma HealthyIff(t: Tree, nqn: string, block: string, desired: Attributes)
    ensures Healthy(t, nqn, block, desired) <==>
      && ValuesMatch(t, nqn, RequiredValues(block, desired))
      && nqn in t.subsystems && t.subsystems[nqn].namespaces.Keys == {"1"} && LinkMatches(t.links, nqn)
  {
    var r := RequiredValues(block, desired);
    assert forall i :: 0 <= i < |desired| ==> r[i + 3] == (PortFile(desired[i].0), desired[i].1);
    if Healthy(t, nqn, block, desired) {
      assert t.subsystems[nqn].namespaces.Keys == {"1"};
      forall i | 0 <= i < |r|
        ensures Contents(t, nqn, r[i].0) == Some(r[i].1)
      {
        if i >= 3 {
          assert r[i] == (PortFile(desired[i - 3].0), desired[i - 3].1);
        }
      }
    }
    if ValuesMatch(t, nqn, r) && nqn in t.subsystems && t.subsystems[nqn].namespaces.Keys == {"1"} && LinkMatches(t.links, nqn) {
      assert Contents(t, nqn, r[0].0) == Some("0") && Contents(t, nqn, r[1].0) == Some(block) && Contents(t, nqn, r[2].0) == Some("1");
      forall i | 0 <= i < |desired|
        ensures desired[i].0 in t.port && t.port[desired[i].0] == desired[i].1
      {
        assert Contents(t, nqn, r[i + 3].0) == Some(r[i + 3].1);
      }
    }
  }

  predicate AccessExact(s: Subsystem, host: string) {
    s.allowAnyHost == Some("0") && s.hosts == Wanted(host)
  }

  /**
   Since `from`, the subsystem was on the port only untouched or with exactly the wanted
   access, and a host that had no access never appeared beside one that loses it.
   */
  ghost predicate NeverMixed(history: seq<Tree>, from: nat, nqn: string, before: Subsystem, host: string) {
    forall k :: from <= k < |history| ==> Fenced(history[k], nqn, before, host)
  }

  ghost predicate Fenced(t: Tree, nqn: string, before: Subsystem, host: string) {
    && nqn in t.subsystems
    && t.subsystems[nqn].namespaces == before.namespaces
    && (nqn in t.links ==> t.subsystems[nqn] == before || AccessExact(t.subsystems[nqn], host))
    && (t.subsystems[nqn].hosts <= before.hosts || t.subsystems[nqn].hosts == Wanted(host))
  }

  class KernelBackend {
    const fs: ConfigFs
    const sharedPort: KernelPort

    constructor (fs: ConfigFs)
      ensures this.fs == fs && sharedPort.fs == fs
    {
      this.fs := fs;
      this.sharedPort := new KernelPort(fs);
    }

    /** A link that cannot be read counts as a wrong one and is made anew. */
    method EnsureSubsystemLink(nqn: string) returns (ok: bool)
      modifies fs`links, fs`history, fs`calls
      ensures SameExcept(old(fs.links), fs.links, nqn)
      ensures ok ==> LinkMatches(fs.links, nqn)
      ensures fs.Reliable() && LinkMatches(old(fs.links), nqn) ==> ok && fs.links == old(fs.links)
      ensures fs.Reliable() && AllSymlinks(old(fs.links)) ==> ok
      ensures old(fs.history) <= fs.history
      ensures forall k :: |old(fs.history)| <= k < |fs.history| ==> fs.history[k].subsystems == fs.subsystems
    {
      var readable := fs.Available();
      if readable && LinkMatches(fs.links, nqn) {
        return true;
      }
      var inspected := fs.Available();
      if !inspected {
        return false;
      }
      if nqn in fs.links {
        if fs.links[nqn].Directory? {
          return false;
        }
        var removed := fs.RemoveLink(nqn);
        if removed != Done {
          return false;
        }
      }
      var linked := fs.MakeLink(nqn, nqn);
      ok := linked == Done;
    }

    method RemoveStaleNamespaces(nqn: string) returns (ok: bool)
      requires nqn in fs.subsystems && nqn !in fs.links
      modifies fs`subsystems, fs`history, fs`calls
      ensures OnlyNamespaces(old(fs.subsystems), fs.subsystems, nqn)
      ensures ok ==> fs.subsystems[nqn].namespaces.Keys <= {"1"}
      ensures fs.Reliable() ==> ok
      ensures old(fs.history) <= fs.history && Unlinked(fs.history, |old(fs.history)|, nqn)
    {
      var stale := fs.subsystems[nqn].namespaces.Keys - {"1"};
      while stale != {}
        invariant OnlyNamespaces(old(fs.subsystems), fs.subsystems, nqn)
        invariant fs.subsystems[nqn].namespaces.Keys - {"1"} == stale
        invariant old(fs.history) <= fs.history && Unlinked(fs.history, |old(fs.history)|, nqn)
        decreases stale
      {
        var id :| id in stale;
        var s := fs.subsystems[nqn];
        if s.namespaces[id].enable.Some? {
          var disabled := fs.Replace(nqn, s.(namespaces := s.namespaces[id := s.namespaces[id].(enable := Some("0"))]));
          if disabled != Done {
            return false;
          }
          s := fs.subsystems[nqn];
        }
        var removed := fs.Replace(nqn, s.(namespaces := s.namespaces - {id}));
        if removed != Done {
          return false;
        }
        stale := stale - {id};
      }
      ok := true;
    }

    method WriteNamespace(nqn: string, n: Namespace) returns (ok: bool)
      requires nqn in fs.subsystems && nqn !in fs.links && fs.subsystems[nqn].namespaces.Keys <= {"1"}
      modifies fs`subsystems, fs`history, fs`calls
      ensures OnlyNamespaces(old(fs.subsystems), fs.subsystems, nqn)
      ensures fs.subsystems[nqn].namespaces == if ok then map["1" := n] else old(fs.subsystems[nqn].namespaces)
      ensures fs.Reliable() ==> ok
      ensures old(fs.history) <= fs.history && Unlinked(fs.history, |old(fs.history)|, nqn)
    {
      var r := fs.Replace(nqn, fs.subsystems[nqn].(namespaces := map["1" := n]));
      ok := r == Done;
    }

    /** Disable namespace 1, point it at the block device, enable it. */
    method EnableNamespace(nqn: string, block: string) returns (ok: bool)
      requires nqn in fs.subsystems && nqn !in fs.links && fs.subsystems[nqn].namespaces.Keys <= {"1"}
      modifies fs`subsystems, fs`history, fs`calls
      ensures OnlyNamespaces(old(fs.subsystems), fs.subsystems, nqn)
      ensures ok ==> NamespaceExact(fs.subsystems[nqn], block)
      ensures fs.Reliable() ==> ok
      ensures old(fs.history) <= fs.history && Unlinked(fs.history, |old(fs.history)|, nqn)
    {
      var n := Namespace(None, None);
      if "1" in fs.subsystems[nqn].namespaces {
        n := fs.subsystems[nqn].namespaces["1"];
      } else {
        ok := WriteNamespace(nqn, n);
        if !ok {
          return;
        }
      }
      n := n.(enable := Some("0"));
      ok := WriteNamespace(nqn, n);
      if !ok {
        return;
      }
      n := n.(devicePath := Some(block));
      ok := WriteNamespace(nqn, n);
      if !ok {
        return;
      }
      ok := WriteNamespace(nqn, n.(enable := Some("1")));
    }

    /** The namespace directory holds exactly namespace 1 and both its values can be read and match. */
    method NamespaceMatches(nqn: string, block: string) returns (exact: bool)
      requires nqn in fs.subsystems
      modifies fs`calls
      ensures exact ==> NamespaceExact(fs.subsystems[nqn], block)
      ensures fs.Reliable() && NamespaceExact(fs.subsystems[nqn], block) ==> exact
    {
      var namespaces := fs.subsystems[nqn].namespaces;
      if namespaces.Keys != {"1"} {
        return false;
      }
      var readable := fs.Available();
      if !readable || namespaces["1"].devicePath != Some(block) {
        return false;
      }
      readable := fs.Available();
      exact := readable && namespaces["1"].enable == Some("1");
    }

    /** Exactly namespace 1 on the block device; repaired only with the link down.  A value that
        cannot be read counts as a wrong one. */
    method EnsureNamespace(nqn: string, block: string) returns (ok: bool)
      requires nqn in fs.subsystems
      modifies fs`subsystems, fs`links, fs`history, fs`calls
      ensures OnlyNamespaces(old(fs.subsystems), fs.subsystems, nqn) && SameExcept(old(fs.links), fs.links, nqn)
      ensures ok ==> NamespaceExact(fs.subsystems[nqn], block)
      ensures fs.Reliable() && NamespaceExact(old(fs.subsystems[nqn]), block) ==> ok && fs.subsystems == old(fs.subsystems) && fs.links == old(fs.links)
      ensures Within(fs.links, old(fs.links))
      ensures fs.Reliable() && AllSymlinks(old(fs.links)) ==> ok
      ensures old(fs.history) <= fs.history
      ensures NeverHalfRepaired(fs.history, |old(fs.history)|, nqn, old(fs.subsystems[nqn].namespaces), block)
    {
      var listed := fs.Available();
      if !listed {
        return false;
      }
      var exact := NamespaceMatches(nqn, block);
      if exact {
        return true;
      }
      var unlinked := fs.RemoveLink(nqn);
      if unlinked != Done && unlinked != NotFound {
        return false;
      }
      ok := RemoveStaleNamespaces(nqn);
      if ok {
        ok := EnableNamespace(nqn, block);
      }
    }

    /** Reads the required values one by one, then the namespaces, then the link. */
    method CheckExport(nqn: string, block: string, portal: Portal) returns (ok: bool)
      modifies fs`calls
      ensures ok ==> portal.family.Some? && Healthy(fs.Snapshot(), nqn, block, PortAttributes(portal))
      ensures fs.Reliable() && portal.family.Some? && Healthy(fs.Snapshot(), nqn, block, PortAttributes(portal)) ==> ok
    {
      if portal.family.None? {
        return false;
      }
      var t := Tree(fs.subsystems, fs.port, fs.links);
      HealthyIff(t, nqn, block, PortAttributes(portal));
      var required := RequiredValues(block, PortAttributes(portal));
      for i := 0 to |required|
        invariant forall j :: 0 <= j < i ==> Contents(t, nqn, required[j].0) == Some(required[j].1)
      {
        var readable := fs.Available();
        if !readable || Contents(t, nqn, required[i].0) != Some(required[i].1) {
          return false;
        }
      }
      var listed := fs.Available();
      if !listed || nqn !in fs.subsystems || fs.subsystems[nqn].namespaces.Keys != {"1"} {
        return false;
      }
      var readable := fs.Available();
      ok := readable && LinkMatches(fs.links, nqn);
    }

    /** A subsystem closed to unlisted hosts, created when missing. */
    method EnsureSubsystem(nqn: string) returns (ok: bool)
      modifies fs`subsystems, fs`history, fs`calls
      ensures SameExcept(old(fs.subsystems), fs.subsystems, nqn)
      ensures ok ==> nqn in fs.subsystems && fs.subsystems[nqn].allowAnyHost == Some("0")
      ensures nqn in fs.subsystems ==>
        fs.subsystems[nqn].(allowAnyHost := None)
        == if nqn in old(fs.subsystems) then old(fs.subsystems[nqn]).(allowAnyHost := None) else Subsystem(None, {}, map[])
      ensures nqn in old(fs.subsystems) ==> nqn in fs.subsystems
      ensures nqn in old(fs.subsystems) && old(fs.subsystems[nqn].allowAnyHost) == Some("0") ==> fs.subsystems == old(fs.subsystems)
      ensures fs.Reliable() ==> ok
      ensures old(fs.history) <= fs.history
      ensures forall k :: |old(fs.history)| <= k < |fs.history| && nqn in fs.history[k].subsystems ==>
        fs.history[k].subsystems[nqn].namespaces == (if nqn in old(fs.subsystems) then old(fs.subsystems[nqn].namespaces) else map[])
    {
      if nqn !in fs.subsystems {
        var made := fs.MakeSubsystem(nqn);
        if made != Done {
          return false;
        }
      }
      var written := fs.Replace(nqn, fs.subsystems[nqn].(allowAnyHost := Some("0")));
      ok := written == Done;
    }

    /** Remove every allowed host while the subsystem is off the port. */
    method RemoveHosts(nqn: string, ghost before: Subsystem, ghost host: string) returns (ok: bool)
      requires nqn in fs.subsystems && nqn !in fs.links && Fenced(fs.Snapshot(), nqn, before, host)
      requires fs.subsystems[nqn].hosts == before.hosts
      modifies fs`subsystems, fs`history, fs`calls
      ensures SameExcept(old(fs.subsystems), fs.subsystems, nqn) && nqn in fs.subsystems
      ensures fs.subsystems[nqn] == old(fs.subsystems[nqn]).(hosts := fs.subsystems[nqn].hosts)
      ensures ok ==> fs.subsystems[nqn].hosts == {}
      ensures fs.Reliable() ==> ok
      ensures old(fs.history) <= fs.history && NeverMixed(fs.history, |old(fs.history)|, nqn, before, host)
    {
      var stale := fs.subsystems[nqn].hosts;
      while stale != {}
        invariant SameExcept(old(fs.subsystems), fs.subsystems, nqn) && nqn in fs.subsystems
        invariant fs.subsystems[nqn] == old(fs.subsystems[nqn]).(hosts := stale) && stale <= before.hosts
        invariant old(fs.history) <= fs.history && NeverMixed(fs.history, |old(fs.history)|, nqn, before, host)
        decreases stale
      {
        var h :| h in stale;
        var r := fs.Replace(nqn, fs.subsystems[nqn].(hosts := fs.subsystems[nqn].hosts - {h}));
        if r != Done {
          return false;
        }
        stale := stale - {h};
      }
      ok := true;
    }

    /** With every stale host gone: authorize the wanted host, then put the subsystem back on the port. */
    method Authorize(nqn: string, host: string, ghost before: Subsystem) returns (ok: bool)
      requires nqn in fs.subsystems && nqn !in fs.links
      requires fs.subsystems[nqn] == Subsystem(Some("0"), {}, before.namespaces)
      modifies fs`subsystems, fs`links, fs`history, fs`calls
      ensures SameExcept(old(fs.subsystems), fs.subsystems, nqn) && SameExcept(old(fs.links), fs.links, nqn)
      ensures nqn in fs.subsystems && fs.subsystems[nqn].namespaces == before.namespaces
      ensures ok ==> AccessExact(fs.subsystems[nqn], host) && LinkMatches(fs.links, nqn)
      ensures fs.Reliable() ==> ok
      ensures old(fs.history) <= fs.history && NeverMixed(fs.history, |old(fs.history)|, nqn, before, host)
    {
      if host != "" {
        var authorized := fs.Replace(nqn, fs.subsystems[nqn].(hosts := fs.subsystems[nqn].hosts + {host}));
        if authorized != Done {
          return false;
        }
      }
      var linked := fs.MakeLink(nqn, nqn);
      ok := linked == Done || linked == AlreadyExists;
    }

    /**
     Switches the access of one subsystem from whatever it was to exactly the wanted host
     (nobody for the empty name), disconnected from the first change to the last.
     */
    method ReconcileHostAccess(nqn: string, host: string) returns (ok: bool)
      modifies fs`subsystems, fs`links, fs`history, fs`calls
      ensures SameExcept(old(fs.subsystems), fs.subsystems, nqn) && SameExcept(old(fs.links), fs.links, nqn)
      ensures nqn !in old(fs.subsystems) ==> !ok && nqn !in fs.subsystems
      ensures ok ==> nqn in fs.subsystems && AccessExact(fs.subsystems[nqn], host) && LinkMatches(fs.links, nqn)
      ensures nqn in old(fs.subsystems) ==> nqn in fs.subsystems && fs.subsystems[nqn].namespaces == old(fs.subsystems[nqn].namespaces)
      ensures nqn in old(fs.subsystems) && AccessExact(old(fs.subsystems[nqn]), host) ==> fs.subsystems == old(fs.subsystems)
      ensures fs.Reliable() && AllSymlinks(old(fs.links)) && nqn in old(fs.subsystems) && old(fs.subsystems[nqn].allowAnyHost).Some? ==> ok
      ensures old(fs.history) <= fs.history
      ensures nqn in old(fs.subsystems) ==> NeverMixed(fs.history, |old(fs.history)|, nqn, old(fs.subsystems[nqn]), host)
    {
      var readable := fs.Available();
      if !readable || nqn !in fs.subsystems || fs.subsystems[nqn].allowAnyHost.None? {
        return false;
      }
      ghost var before := fs.subsystems[nqn];
      if AccessExact(fs.subsystems[nqn], host) {
        ok := EnsureSubsystemLink(nqn);
        return;
      }
      var unlinked := fs.RemoveLink(nqn);
      if unlinked != Done && unlinked != NotFound {
        return false;
      }
      var closed := fs.Replace(nqn, fs.subsystems[nqn].(allowAnyHost := Some("0")));
      if closed != Done {
        return false;
      }
      ok := RemoveHosts(nqn, before, host);
      if !ok {
        return;
      }
      var live := fs.Available();
      if !live {
        return false;
      }
      ok := Authorize(nqn, host, before);
    }

    /**
     Repairs the export from any tree.  A healthy export is left alone; other subsystems and,
     on success, their links on the shared port are as before.
     */
    method ExportVolume(nqn: string, block: string, portal: Portal) returns (ok: bool)
      requires sharedPort.fs == fs
      modifies fs
      ensures ok ==> ValidRequest(block, portal) && Healthy(fs.Snapshot(), nqn, block, PortAttributes(portal))
      ensures ok ==> SameExcept(old(fs.links), fs.links, nqn)
      ensures SameExcept(old(fs.subsystems), fs.subsystems, nqn)
      ensures forall n :: n != nqn && n in fs.links ==> n in old(fs.links) && fs.links[n] == old(fs.links[n])
      ensures nqn in fs.subsystems ==> fs.subsystems[nqn].hosts == if nqn in old(fs.subsystems) then old(fs.subsystems[nqn].hosts) else {}
      ensures fs.Reliable() && ValidRequest(block, portal) && Healthy(old(fs.Snapshot()), nqn, block, PortAttributes(portal)) ==>
        ok && fs.Snapshot() == old(fs.Snapshot())
      ensures fs.Reliable() && ValidRequest(block, portal) && AllSymlinks(old(fs.links)) ==> ok
      ensures old(fs.history) <= fs.history
      ensures NeverHalfRepaired(fs.history, |old(fs.history)|, nqn, if nqn in old(fs.subsystems) then old(fs.subsystems[nqn].namespaces) else map[], block)
    {
      if !ValidRequest(block, portal) {
        return false;
      }
      ok := Build(nqn, block);
      if !ok {
        return;
      }
      ok := Attach(nqn, PortAttributes(portal));
      if !ok {
        return;
      }
      ok := CheckExport(nqn, block, portal);
    }

    /** The subsystem with its namespace. */
    method Build(nqn: string, block: string) returns (ok: bool)
      modifies fs`subsystems, fs`links, fs`history, fs`calls
      ensures SameExcept(old(fs.subsystems), fs.subsystems, nqn) && SameExcept(old(fs.links), fs.links, nqn)
      ensures Within(fs.links, old(fs.links))
      ensures nqn in fs.subsystems ==> fs.subsystems[nqn].hosts == if nqn in old(fs.subsystems) then old(fs.subsystems[nqn].hosts) else {}
      ensures ok ==> nqn in fs.subsystems && NamespaceExact(fs.subsystems[nqn], block) && fs.subsystems[nqn].allowAnyHost == Some("0")
      ensures fs.Reliable() && AllSymlinks(old(fs.links)) ==> ok
      ensures fs.Reliable() && nqn in old(fs.subsystems) && NamespaceExact(old(fs.subsystems[nqn]), block) && old(fs.subsystems[nqn].allowAnyHost) == Some("0") ==>
        ok && fs.subsystems == old(fs.subsystems) && fs.links == old(fs.links)
      ensures old(fs.history) <= fs.history
      ensures NeverHalfRepaired(fs.history, |old(fs.history)|, nqn, if nqn in old(fs.subsystems) then old(fs.subsystems[nqn].namespaces) else map[], block)
    {
      ok := EnsureSubsystem(nqn);
      if ok {
        ok := EnsureNamespace(nqn, block);
      }
    }

    /** The port, then the link of the subsystem on it. */
    method Attach(nqn: string, desired: Attributes) returns (ok: bool)
      requires sharedPort.fs == fs && DistinctNames(desired)
      modifies fs`port, fs`links, fs`history, fs`calls
      ensures ok ==> PortConfigured(fs.port, desired) && LinkMatches(fs.links, nqn) && SameExcept(old(fs.links), fs.links, nqn)
      ensures forall n :: n != nqn && n in fs.links ==> n in old(fs.links) && fs.links[n] == old(fs.links[n])
      ensures fs.Reliable() && PortConfigured(old(fs.port), desired) && LinkMatches(old(fs.links), nqn) ==> ok && fs.port == old(fs.port) && fs.links == old(fs.links)
      ensures fs.Reliable() && AllSymlinks(old(fs.links)) ==> ok
      ensures old(fs.history) <= fs.history
      ensures forall k :: |old(fs.history)| <= k < |fs.history| ==> fs.history[k].subsystems == fs.subsystems
    {
      ghost var start;
      ok, start := sharedPort.Ensure(desired);
      if ok {
        ok := EnsureSubsystemLink(nqn);
      }
    }

    /** Takes the export away; succeeding means that nothing of the subsystem is left. */
    method UnexportVolume(nqn: string) returns (ok: bool)
      modifies fs`subsystems, fs`links, fs`history, fs`calls
      ensures SameExcept(old(fs.subsystems), fs.subsystems, nqn) && SameExcept(old(fs.links), fs.links, nqn)
      ensures ok ==> nqn !in fs.subsystems
      ensures ok && nqn in old(fs.subsystems) ==> nqn !in fs.links
      ensures nqn !in old(fs.subsystems) && fs.Reliable() ==> ok
      ensures nqn !in old(fs.subsystems) ==> fs.subsystems == old(fs.subsystems) && fs.links == old(fs.links)
      ensures fs.Reliable() && AllSymlinks(old(fs.links)) && nqn in old(fs.subsystems) && Removable(old(fs.subsystems[nqn])) ==> ok
    {
      var inspected := fs.Available();
      if !inspected || nqn !in fs.subsystems {
        return inspected;
      }
      ok := ReconcileHostAccess(nqn, "");
      if !ok {
        return;
      }
      var unlinked := fs.RemoveLink(nqn);
      if unlinked != Done && unlinked != NotFound {
        return false;
      }
      ok := RemoveNamespaceOne(nqn);
      if !ok {
        return;
      }
      var removed := fs.RemoveSubsystem(nqn);
      ok := removed == Done || removed == NotFound;
    }

    method RemoveNamespaceOne(nqn: string) returns (ok: bool)
      requires nqn in fs.subsystems
      modifies fs`subsystems, fs`history, fs`calls
      ensures OnlyNamespaces(old(fs.subsystems), fs.subsystems, nqn)
      ensures ok ==> fs.subsystems[nqn].namespaces == old(fs.subsystems[nqn].namespaces) - {"1"}
      ensures fs.Reliable() ==> ok
    {
      if "1" !in fs.subsystems[nqn].namespaces {
        return true;
      }
      var s := fs.subsystems[nqn];
      var disabled := fs.Replace(nqn, s.(namespaces := s.namespaces["1" := s.namespaces["1"].(enable := Some("0"))]));
      if disabled != Done {
        return false;
      }
      var removed := fs.Replace(nqn, s.(namespaces := s.namespaces - {"1"}));
      ok := removed == Done;
    }
  }
}
