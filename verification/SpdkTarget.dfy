/**
 The SPDK NVMe-oF target: inspecting, replacing and removing an export, and switching the
 authorized host, as sequences of RPCs.

 A mutating RPC that reports success has taken effect; one that reports failure may or may
 not have (its response can be lost).  When `reliable` is set nothing fails without a reason.
 `history` records the target after each RPC.
 */
module SpdkTarget {
  import opened HostAccess
  import Text

  datatype Bdev = Bdev(name: string, uuid: string, aliases: set<string>)

  datatype Namespace = Namespace(name: string, bdevName: string)

  datatype Listener = Listener(trtype: string, address: string, service: string)

  datatype Subsystem = Subsystem(allowAnyHost: bool, hosts: set<string>, namespaces: seq<Namespace>, listeners: seq<Listener>)

  type Subsystems = map<string, Subsystem>

  datatype Portal = Portal(address: string, service: nat)

  /** The names under which bdev_get_bdevs knows a block path. */
  function Identities(bdevs: set<Bdev>, block: string): (names: set<string>)
    ensures "" !in names
  {
    ({block} + (set b | b in bdevs :: b.name) + (set b | b in bdevs :: b.uuid)
     + (set b, a | b in bdevs && a in b.aliases :: a)) - {""}
  }

  predicate Answers(b: Bdev, block: string) {
    block != "" && (b.name == block || b.uuid == block || block in b.aliases)
  }

  function Resolve(all: set<Bdev>, block: string): set<Bdev> {
    set b | b in all && Answers(b, block)
  }

  predicate Backs(n: Namespace, names: set<string>) {
    n.name in names || n.bdevName in names
  }

  function Lower(c: char): char {
    if 'A' <= c <= 'Z' then c - 'A' + 'a' else c
  }

  /** strings.EqualFold on the ASCII transport name. */
  predicate IsRdma(trtype: string) {
    |trtype| == 4 && Lower(trtype[0]) == 'r' && Lower(trtype[1]) == 'd' && Lower(trtype[2]) == 'm' && Lower(trtype[3]) == 'a'
  }

  predicate Listens(l: Listener, portal: Portal) {
    IsRdma(l.trtype) && l.address == portal.address && l.service == Text.Decimal(portal.service)
  }

  /** The export serves the block device at the portal. */
  predicate Healthy(s: Subsystem, bdevs: set<Bdev>, block: string, portal: Portal) {
    && Resolve(bdevs, block) != {}
    && (exists i :: 0 <= i < |s.namespaces| && Backs(s.namespaces[i], Identities(Resolve(bdevs, block), block)))
    && (exists i :: 0 <= i < |s.listeners| && Listens(s.listeners[i], portal))
  }

  /** The set of names, collected bdev by bdev. */
  method CollectIdentities(bdevs: set<Bdev>, block: string) returns (names: set<string>)
    ensures names == Identities(bdevs, block)
  {
    names := {block};
    var todo := bdevs;
    while todo != {}
      invariant todo <= bdevs
      invariant names - {""} == Identities(bdevs - todo, block)
      decreases todo
    {
      var b :| b in todo;
      ghost var done := bdevs - todo;
      names := names + {b.name, b.uuid} + b.aliases;
      todo := todo - {b};
      assert bdevs - todo == done + {b};
      OneMoreBdev(done, b, block);
    }
    assert bdevs - todo == bdevs;
    names := names - {""};
  }

  lemma OneMoreBdev(bdevs: set<Bdev>, b: Bdev, block: string)
    ensures Identities(bdevs + {b}, block) == Identities(bdevs, block) + ({b.name, b.uuid} + b.aliases - {""})
  {
    var l, r := Identities(bdevs + {b}, block), Identities(bdevs, block) + ({b.name, b.uuid} + b.aliases - {""});
    forall x
      ensures x in l <==> x in r
    {
      if x in r && x !in Identities(bdevs, block) {
        assert b in bdevs + {b};
      }
    }
  }

  method NamespaceMatches(namespaces: seq<Namespace>, names: set<string>) returns (found: bool)
    ensures found <==> exists i :: 0 <= i < |namespaces| && Backs(namespaces[i], names)
  {
    for i := 0 to |namespaces|
      invariant forall j :: 0 <= j < i ==> !Backs(namespaces[j], names)
    {
      if namespaces[i].name in names || namespaces[i].bdevName in names {
        assert Backs(namespaces[i], names);
        return true;
      }
    }
    found := false;
  }

  method ListenerMatches(listeners: seq<Listener>, portal: Portal) returns (found: bool)
    ensures found <==> exists i :: 0 <= i < |listeners| && Listens(listeners[i], portal)
  {
    var service := Text.Decimal(portal.service);
    for i := 0 to |listeners|
      invariant forall j :: 0 <= j < i ==> !Listens(listeners[j], portal)
    {
      if IsRdma(listeners[i].trtype) && listeners[i].address == portal.address && listeners[i].service == service {
        assert Listens(listeners[i], portal);
        return true;
      }
    }
    found := false;
  }

  datatype ExportState = IsHealthy | Missing | Mismatch | Unavailable

  function Fresh(): Subsystem {
    Subsystem(false, {}, [], [])
  }

  function Exported(block: string, portal: Portal): Subsystem {
    Subsystem(false, {}, [Namespace("", block)], [Listener("RDMA", portal.address, Text.Decimal(portal.service))])
  }

  /** A subsystem assembled by the three creation RPCs passes the inspection. */
  lemma AssembledIsHealthy(bdevs: set<Bdev>, block: string, portal: Portal)
    requires Resolve(bdevs, block) != {}
    ensures Healthy(Exported(block, portal), bdevs, block, portal)
  {
    var s := Exported(block, portal);
    var b :| b in Resolve(bdevs, block);
    assert Answers(b, block);
    assert Backs(s.namespaces[0], Identities(Resolve(bdevs, block), block));
    assert Listens(s.listeners[0], portal);
  }

  predicate AccessExact(s: Subsystem, host: string) {
    !s.allowAnyHost && s.hosts == Wanted(host)
  }

  /**
   Nothing but the access differs from `before`.  Until every former host is gone only
   former hosts are authorized, and after that nobody but the wanted one; once the
   wanted one is granted anew, unlisted hosts are shut out.
   */
  ghost predicate Fenced(m: Subsystems, nqn: string, before: Subsystem, host: string) {
    && nqn in m
    && m[nqn] == before.(allowAnyHost := m[nqn].allowAnyHost, hosts := m[nqn].hosts)
    && (m[nqn].hosts <= before.hosts || AccessExact(m[nqn], host))
    && (m[nqn].allowAnyHost ==> before.allowAnyHost)
  }

  ghost predicate NeverMixed(history: seq<Subsystems>, from: nat, nqn: string, before: Subsystem, host: string) {
    forall k :: from <= k < |history| ==> Fenced(history[k], nqn, before, host)
  }

  class SpdkBackend {
    const reliable: bool
    const bdevs: set<Bdev>
    var subsystems: Subsystems
    ghost var history: seq<Subsystems>

    constructor (bdevs: set<Bdev>, subsystems: Subsystems, reliable: bool)
      ensures this.bdevs == bdevs && this.subsystems == subsystems && this.reliable == reliable && history == []
    {
      this.bdevs, this.subsystems, this.reliable, this.history := bdevs, subsystems, reliable, [];
    }

    /** A mutating RPC. */
    method Call(after: Subsystems) returns (ok: bool)
      modifies this
      ensures ok ==> subsystems == after
      ensures subsystems == after || subsystems == old(subsystems)
      ensures reliable ==> ok
      ensures history == old(history) + [subsystems]
    {
      ok := *;
      ok := ok || reliable;
      var applied: bool := *;
      if ok || applied {
        subsystems := after;
      }
      history := history + [subsystems];
    }

    method Observe() returns (ok: bool)
      ensures reliable ==> ok
    {
      ok := *;
      ok := ok || reliable;
    }

    method InspectExport(nqn: string, block: string, portal: Portal) returns (state: ExportState)
      ensures state == IsHealthy ==> nqn in subsystems && Healthy(subsystems[nqn], bdevs, block, portal)
      ensures state == Missing ==> nqn !in subsystems
      ensures state == Mismatch ==> nqn in subsystems && !Healthy(subsystems[nqn], bdevs, block, portal)
      ensures reliable ==> state != Unavailable
    {
      var listed := Observe();
      if !listed {
        return Unavailable;
      }
      if nqn !in subsystems {
        return Missing;
      }
      var resolved := Observe();
      if !resolved {
        return Unavailable;
      }
      var backing := Resolve(bdevs, block);
      if backing == {} {
        return Mismatch;
      }
      var names := CollectIdentities(backing, block);
      var backed := NamespaceMatches(subsystems[nqn].namespaces, names);
      if !backed {
        return Mismatch;
      }
      var served := ListenerMatches(subsystems[nqn].listeners, portal);
      state := if served then IsHealthy else Mismatch;
    }

    /** The three creation RPCs, undone (as far as the target answers) when one fails. */
    method Assemble(nqn: string, block: string, portal: Portal) returns (ok: bool)
      requires nqn !in subsystems
      modifies this
      ensures SameExcept(old(subsystems), subsystems, nqn)
      ensures ok ==> nqn in subsystems && subsystems[nqn] == Exported(block, portal) && Resolve(bdevs, block) != {}
      ensures nqn in subsystems ==> subsystems[nqn].hosts == {} && !subsystems[nqn].allowAnyHost
      ensures reliable ==> (ok <==> Resolve(bdevs, block) != {})
      ensures reliable && !ok ==> nqn !in subsystems
      ensures old(history) <= history
    {
      var transport := Observe();
      if !transport {
        return false;
      }
      ok := Call(subsystems[nqn := Fresh()]);
      if !ok {
        return;
      }
      if Resolve(bdevs, block) == {} {
        ok := false;
      } else {
        ok := Call(subsystems[nqn := subsystems[nqn].(namespaces := [Namespace("", block)])]);
      }
      if !ok {
        var undone := Call(subsystems - {nqn});
        return;
      }
      ok := Call(subsystems[nqn := Exported(block, portal)]);
      if !ok {
        var undone := Call(subsystems - {nqn});
      }
    }

    /**
     A healthy export and an unobservable one are left alone; anything else is replaced by a
     fresh export that authorizes nobody.  Success means that the inspection would accept it.
     */
    method ExportVolume(nqn: string, block: string, portal: Portal) returns (ok: bool)
      modifies this
      ensures SameExcept(old(subsystems), subsystems, nqn)
      ensures ok ==> nqn in subsystems && Healthy(subsystems[nqn], bdevs, block, portal)
      ensures nqn in old(subsystems) && Healthy(old(subsystems[nqn]), bdevs, block, portal) ==> subsystems == old(subsystems)
      ensures nqn in subsystems ==>
        || (nqn in old(subsystems) && subsystems[nqn] == old(subsystems[nqn]))
        || (subsystems[nqn].hosts == {} && !subsystems[nqn].allowAnyHost)
      ensures reliable ==> (ok <==> Resolve(bdevs, block) != {})
      ensures old(history) <= history
    {
      var state := InspectExport(nqn, block, portal);
      if state == IsHealthy {
        return true;
      }
      if state == Unavailable {
        return false;
      }
      if state == Mismatch {
        var deleted := Call(subsystems - {nqn});
        if !deleted {
          return false;
        }
      }
      ok := Assemble(nqn, block, portal);
      if ok {
        AssembledIsHealthy(bdevs, block, portal);
      }
    }

    method RemoveHosts(nqn: string, ghost before: Subsystem, ghost host: string) returns (ok: bool)
      requires nqn in subsystems && subsystems[nqn] == before.(allowAnyHost := false)
      modifies this
      ensures SameExcept(old(subsystems), subsystems, nqn) && nqn in subsystems
      ensures ok ==> subsystems[nqn] == before.(allowAnyHost := false, hosts := {})
      ensures reliable ==> ok
      ensures old(history) <= history && NeverMixed(history, |old(history)|, nqn, before, host)
    {
      var stale := subsystems[nqn].hosts;
      while stale != {}
        invariant SameExcept(old(subsystems), subsystems, nqn) && nqn in subsystems
        invariant subsystems[nqn] == before.(allowAnyHost := false, hosts := stale) && stale <= before.hosts
        invariant old(history) <= history && NeverMixed(history, |old(history)|, nqn, before, host)
        decreases stale
      {
        var live := Observe();
        if !live {
          return false;
        }
        var h :| h in stale;
        var removed := Call(subsystems[nqn := subsystems[nqn].(hosts := subsystems[nqn].hosts - {h})]);
        if !removed {
          return false;
        }
        stale := stale - {h};
      }
      ok := true;
    }

    /** Switches one subsystem from whatever access it had to exactly the wanted host. */
    method ReconcileHostAccess(nqn: string, host: string) returns (ok: bool)
      modifies this
      ensures SameExcept(old(subsystems), subsystems, nqn)
      ensures nqn !in old(subsystems) ==> !ok && nqn !in subsystems
      ensures ok ==> nqn in subsystems && AccessExact(subsystems[nqn], host)
      ensures reliable && nqn in old(subsystems) ==> ok
      ensures nqn in old(subsystems) && AccessExact(old(subsystems[nqn]), host) ==> subsystems == old(subsystems)
      ensures old(history) <= history
      ensures nqn in old(subsystems) ==> NeverMixed(history, |old(history)|, nqn, old(subsystems[nqn]), host)
    {
      var listed := Observe();
      if !listed || nqn !in subsystems {
        return false;
      }
      ghost var before := subsystems[nqn];
      if AccessExact(subsystems[nqn], host) {
        return true;
      }
      if subsystems[nqn].allowAnyHost {
        var closed := Call(subsystems[nqn := subsystems[nqn].(allowAnyHost := false)]);
        if !closed {
          return false;
        }
      }
      ok := RemoveHosts(nqn, before, host);
      if ok && host != "" {
        ok := Call(subsystems[nqn := subsystems[nqn].(hosts := subsystems[nqn].hosts + {host})]);
      }
    }

    /** A lost response is settled by looking again: success means that the subsystem is gone. */
    method UnexportVolume(nqn: string) returns (ok: bool)
      modifies this
      ensures SameExcept(old(subsystems), subsystems, nqn)
      ensures ok ==> nqn !in subsystems
      ensures !ok && nqn in subsystems ==> nqn in old(subsystems) && subsystems[nqn] == old(subsystems[nqn])
      ensures nqn !in old(subsystems) ==> subsystems == old(subsystems)
      ensures reliable ==> ok
    {
      var listed := Observe();
      if !listed || nqn !in subsystems {
        return listed;
      }
      var deleted := Call(subsystems - {nqn});
      var verified := Observe();
      ok := verified && nqn !in subsystems;
    }
  }
}
