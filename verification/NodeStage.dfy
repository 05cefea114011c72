/**
 Staging a volume on a node: directory, connection, filesystem, mount, and the rollback that
 undoes exactly what the failing call did.

 `Env` says what each command will do during the call, including whether a connect or mount
 that reports failure takes effect all the same.  `observant` says that listing the live
 controllers works whenever it is asked, and `dependable` that the cleanup commands work.
 */
module NodeStage {
  import opened Options

  datatype Mount = Mount(device: string, filesystem: string, readOnly: bool)

  /** The mounts stacked on the staging path, the visible one last. */
  function Visible(mounts: seq<Mount>): Option<Mount> {
    if mounts == [] then None else Some(mounts[|mounts| - 1])
  }

  /** verifyStagingMount accepts the visible mount. */
  predicate Expected(m: Mount, device: string, filesystem: string) {
    m.device == device && m.filesystem == filesystem && !m.readOnly
  }

  predicate Supported(filesystem: string) {
    filesystem == "ext4" || filesystem == "xfs"
  }

  /** Whether each command succeeds, in the order of the call. */
  datatype Env = Env(
    inspects: bool,
    makesDirectory: bool,
    lists: bool,
    alive: bool,
    connects: bool,
    connectSticks: bool,
    interrupted: bool,
    recognized: bool,
    listsAgain: bool,
    findsDevice: bool,
    readsMounts: bool,
    probes: bool,
    formats: bool,
    partial: Option<string>,
    mounts: bool,
    mountSticks: bool,
    shown: Option<Mount>,
    readsMountsAgain: bool,
    live: bool)

  /** What is on the node: `content` is what the block device holds, None when it is blank. */
  datatype Site = Site(directory: bool, connected: bool, mounts: seq<Mount>, content: Option<string>)

  // ---------------------------------------------------------------- what decides the call

  predicate Enters(e: Env, s: Site) {
    e.inspects && (s.directory || e.makesDirectory)
  }

  /** A connect that failed and yet connected is taken for somebody else's. */
  predicate Adopts(e: Env, s: Site) {
    !s.connected && e.alive && !e.connects && e.connectSticks && !e.interrupted
  }

  predicate Reaches(e: Env, s: Site) {
    (s.connected || (e.alive && e.connects) || Adopts(e, s)) && e.findsDevice && e.readsMounts
  }

  /** The requested filesystem is there, or a blank device is given it. */
  predicate Formats(e: Env, s: Site, filesystem: string) {
    e.probes && (s.content == Some(filesystem) || (s.content.None? && Supported(filesystem) && e.formats))
  }

  predicate Shows(e: Env, device: string, filesystem: string) {
    e.readsMountsAgain && e.shown.Some? && Expected(e.shown.value, device, filesystem)
  }

  predicate Stages(e: Env, s: Site, device: string, filesystem: string) {
    && Enters(e, s) && Reaches(e, s)
    && if s.mounts != [] then Expected(s.mounts[|s.mounts| - 1], device, filesystem)
       else Formats(e, s, filesystem) && e.mounts && Shows(e, device, filesystem)
  }

  /** A mount that failed and yet mounted, or one that could not be verified and whose unmount
      runs under a context cancelled in the meantime. */
  predicate MountStays(e: Env, s: Site, device: string, filesystem: string) {
    && Reaches(e, s) && s.mounts == [] && Formats(e, s, filesystem)
    && if e.mounts then e.shown.Some? && !Shows(e, device, filesystem) && !e.live else e.mountSticks
  }

  /** The failing calls that leave something behind. */
  predicate Leaks(e: Env, s: Site, device: string, filesystem: string) {
    Enters(e, s) && (Adopts(e, s) || MountStays(e, s, device, filesystem))
  }

  /** When no failed command takes effect and the context stays live, nothing is left behind. */
  lemma OnlyStickyCommandsLeak(e: Env, s: Site, device: string, filesystem: string)
    requires !e.connectSticks && !e.mountSticks && e.live
    ensures !Leaks(e, s, device, filesystem)
  {
  }

  function Working(device: string, filesystem: string): Env {
    Env(true, true, true, true, true, false, false, false, true, true, true, true, true, None, true, false,
        Some(Mount(device, filesystem, false)), true, true)
  }

  /** With working commands staging succeeds exactly when the expected mount is visible, or nothing
      is mounted and the filesystem is there or can be made. */
  lemma WorkingCommandsStageIff(s: Site, device: string, filesystem: string)
    ensures Stages(Working(device, filesystem), s, device, filesystem) <==>
      if s.mounts != [] then Expected(s.mounts[|s.mounts| - 1], device, filesystem)
      else s.content == Some(filesystem) || (s.content.None? && Supported(filesystem))
  {
  }

  /** On every node that is not connected, a connect that fails and yet connects makes the call leak
      when the device is not found. */
  lemma StickyConnectCanLeak(s: Site, device: string, filesystem: string) returns (e: Env)
    requires !s.connected
    ensures e.connectSticks && !e.mountSticks && e.live
    ensures Leaks(e, s, device, filesystem) && !Stages(e, s, device, filesystem)
  {
    e := Working(device, filesystem).(connects := false, connectSticks := true, findsDevice := false);
  }

  /** On every node with nothing mounted and a filesystem to be had, so does a mount that fails and
      yet mounts. */
  lemma StickyMountCanLeak(s: Site, device: string, filesystem: string) returns (e: Env)
    requires s.mounts == [] && (s.content == Some(filesystem) || (s.content.None? && Supported(filesystem)))
    ensures !e.connectSticks && e.mountSticks && e.live
    ensures Leaks(e, s, device, filesystem) && !Stages(e, s, device, filesystem)
  {
    e := Working(device, filesystem).(mounts := false, mountSticks := true);
  }

  /** And so does a mount that comes up read-only while the call is being cancelled. */
  lemma CancelledVerificationCanLeak(s: Site, device: string, filesystem: string) returns (e: Env)
    requires s.mounts == [] && (s.content == Some(filesystem) || (s.content.None? && Supported(filesystem)))
    ensures !e.connectSticks && !e.mountSticks && !e.live
    ensures Leaks(e, s, device, filesystem) && !Stages(e, s, device, filesystem)
  {
    e := Working(device, filesystem).(shown := Some(Mount(device, filesystem, true)), live := false);
  }

  // ---------------------------------------------------------------- the call

  class Node {
    const device: string
    const env: Env
    const observant: bool
    const dependable: bool
    var directory: bool
    var connected: bool
    var mounts: seq<Mount>
    var content: Option<string>

    constructor (device: string, env: Env, observant: bool, dependable: bool, s: Site)
      ensures this.device == device && this.env == env && this.observant == observant && this.dependable == dependable
      ensures Now() == s
    {
      this.device, this.env, this.observant, this.dependable := device, env, observant, dependable;
      this.directory, this.connected, this.mounts, this.content := s.directory, s.connected, s.mounts, s.content;
    }

    function Now(): Site
      reads this
    {
      Site(directory, connected, mounts, content)
    }

    /** A cleanup command. */
    method Cleans() returns (ok: bool)
      ensures dependable ==> ok
    {
      ok := *;
      ok := ok || dependable;
    }

    /** GetDeviceByNQN: finds nothing that is not live, and may fail. */
    method Observe(works: bool) returns (live: bool)
      ensures live ==> connected
      ensures observant ==> live == connected
    {
      live := connected && (works || observant);
    }

    /** ConnectRDMA: whether this call is responsible for a connection, and whether there is one. */
    method Connect() returns (created: bool, ok: bool)
      modifies this`connected
      ensures ok ==> connected
      ensures observant ==> (ok <==> old(connected) || (env.alive && env.connects) || Adopts(env, old(Now())))
      ensures observant && old(connected) ==> connected && !created
      ensures !created ==> (connected <==> old(connected) || ok)
      ensures observant && !created && ok && !old(connected) ==> Adopts(env, old(Now()))
      ensures observant && created ==> !old(connected) && !Adopts(env, old(Now()))
    {
      var live := Observe(env.lists);
      if live {
        return false, true;
      }
      if !env.alive {
        return false, false;
      }
      var before := connected;
      if env.connects && !connected {
        connected := true;
        return true, true;
      }
      connected := connected || env.connectSticks;
      if env.interrupted {
        return true, false;
      }
      if before && env.recognized {
        return false, true;
      }
      live := Observe(env.listsAgain);
      if live {
        return false, true;
      }
      return true, false;
    }

    method Disconnect() returns (ok: bool)
      modifies this`connected
      ensures ok ==> !connected
      ensures connected ==> old(connected)
      ensures dependable ==> ok
    {
      ok := Cleans();
      if ok {
        connected := false;
      }
    }

    /** rmdir refuses while something is mounted there. */
    method RemoveDirectory() returns (ok: bool)
      modifies this`directory
      ensures directory ==> old(directory)
      ensures mounts != [] ==> directory == old(directory)
      ensures dependable && mounts == [] ==> !directory
    {
      ok := Cleans();
      ok := ok && mounts == [];
      if ok {
        directory := false;
      }
    }

    /** Unmounts until nothing is mounted on the path, as long as the context is live; mounts may be stacked. */
    method Unmount(live: bool) returns (ok: bool)
      modifies this`mounts
      ensures ok ==> mounts == []
      ensures mounts <= old(mounts)
      ensures dependable && live ==> ok
      ensures !live ==> mounts == old(mounts)
    {
      while true
        invariant mounts <= old(mounts)
        invariant !live ==> mounts == old(mounts)
        decreases |mounts|
      {
        var works := Cleans();
        if !live || !works {
          return false;
        }
        if mounts == [] {
          return true;
        }
        var unmounted := Cleans();
        if !unmounted {
          return false;
        }
        mounts := mounts[..|mounts| - 1];
      }
    }

    /** A blank device is formatted; anything already on it is left as it is. */
    method EnsureFilesystem(filesystem: string) returns (ok: bool)
      modifies this`content
      ensures ok <==> Formats(env, old(Now()), filesystem)
      ensures ok ==> content == Some(filesystem)
      ensures old(content).Some? ==> content == old(content)
    {
      if !env.probes {
        return false;
      }
      if content.None? {
        if !Supported(filesystem) {
          return false;
        }
        content := if env.formats then Some(filesystem) else env.partial;
        return env.formats;
      }
      ok := content == Some(filesystem);
    }

    /** formatAndMount: whether this call mounted, and whether the expected mount is there. */
    method MountStage(filesystem: string) returns (mounted: bool, ok: bool)
      requires directory
      modifies this`mounts, this`content
      ensures ok ==> Visible(mounts).Some? && Expected(Visible(mounts).value, device, filesystem)
      ensures old(content).Some? ==> content == old(content)
      ensures old(mounts) != [] ==> mounts == old(mounts) && !mounted
      ensures old(mounts) != [] ==> (ok <==> env.readsMounts && Expected(old(mounts)[|old(mounts)| - 1], device, filesystem))
      ensures old(mounts) == [] ==> (ok <==> env.readsMounts && Formats(env, old(Now()), filesystem) && env.mounts && Shows(env, device, filesystem))
      ensures mounted ==> ok
      ensures ok && old(mounts) == [] ==> content == Some(filesystem) && |mounts| == 1
      ensures !ok && dependable && old(mounts) == [] ==>
        (mounts != [] <==> env.readsMounts && Formats(env, old(Now()), filesystem)
                           && if env.mounts then env.shown.Some? && !Shows(env, device, filesystem) && !env.live else env.mountSticks)
    {
      if !env.readsMounts {
        return false, false;
      }
      if mounts != [] {
        return false, Expected(mounts[|mounts| - 1], device, filesystem);
      }
      var formatted := EnsureFilesystem(filesystem);
      if !formatted {
        return false, false;
      }
      if !env.mounts {
        mounts := if env.mountSticks then [Mount(device, filesystem, false)] else [];
        return false, false;
      }
      // What the kernel then reports may still be something else, such as a read-only mount.
      mounts := if env.shown.Some? then [env.shown.value] else [];
      if !env.readsMountsAgain || mounts == [] || !Expected(mounts[0], device, filesystem) {
        // This unmount runs under the caller's context.
        var undone := Unmount(env.live);
        return false, false;
      }
      return true, true;
    }

    method RollBack(mountedByCall: bool, createdConnection: bool, createdDirectory: bool)
      modifies this`mounts, this`connected, this`directory
      ensures !mountedByCall ==> mounts == old(mounts)
      ensures mounts <= old(mounts)
      ensures !createdConnection ==> connected == old(connected)
      ensures connected ==> old(connected)
      ensures !createdDirectory || mounts != [] ==> directory == old(directory)
      ensures directory ==> old(directory)
      ensures dependable && mountedByCall ==> mounts == []
      ensures dependable && createdConnection ==> !connected
      ensures dependable && createdDirectory && mounts == [] ==> !directory
    {
      var ignored: bool;
      if mountedByCall {
        ignored := Unmount(true);
      }
      if createdConnection {
        ignored := Disconnect();
      }
      if createdDirectory {
        ignored := RemoveDirectory();
      }
    }

    /**
     Staging.  A device with anything on it keeps its content; a mount that was there stays
     in every case, and so does a connection as long as controllers can be listed.  Success and,
     for a failing call, what is left behind are decided by what the commands do.
     */
    method NodeStageVolume(filesystem: string) returns (ok: bool)
      requires mounts != [] ==> directory
      modifies this
      ensures ok ==> directory && connected && Visible(mounts).Some? && Expected(Visible(mounts).value, device, filesystem)
      ensures old(content).Some? ==> content == old(content)
      ensures old(mounts) != [] ==> mounts == old(mounts)
      ensures observant && old(connected) ==> connected
      ensures observant ==> (ok <==> Stages(env, old(Now()), device, filesystem))
      ensures !ok && observant && dependable ==>
        (directory == old(directory) && connected == old(connected) && mounts == old(mounts) <==> !Leaks(env, old(Now()), device, filesystem))
      ensures !ok && observant && dependable ==> (connected <==> old(connected) || (Enters(env, old(Now())) && Adopts(env, old(Now()))))
      ensures !ok && observant && dependable && old(mounts) == [] ==>
        (mounts != [] <==> Enters(env, old(Now())) && MountStays(env, old(Now()), device, filesystem))
    {
      if !env.inspects {
        return false;
      }
      var createdDirectory := false;
      if !directory {
        if !env.makesDirectory {
          return false;
        }
        directory, createdDirectory := true, true;
      }
      var createdConnection, reached := Connect();
      if !reached || !env.findsDevice {
        RollBack(false, createdConnection, createdDirectory);
        return false;
      }
      var mountedByCall;
      mountedByCall, ok := MountStage(filesystem);
      if !ok {
        RollBack(mountedByCall, createdConnection, createdDirectory);
      }
    }

    /** Unstaging: unmount everything, then disconnect. */
    method NodeUnstageVolume() returns (ok: bool)
      modifies this`mounts, this`connected
      ensures ok ==> mounts == [] && !connected
      ensures mounts != [] ==> connected == old(connected)
      ensures mounts <= old(mounts)
      ensures dependable && env.live ==> ok
    {
      ok := Unmount(env.live);
      if ok {
        ok := Disconnect();
      }
    }
  }

  /** An execution that leaks a connection: the connect fails and yet connects, and the device of
      the adopted connection is not found. */
  method LeakedConnection(device: string, filesystem: string) returns (ok: bool, node: Node)
    ensures !ok && node.connected
  {
    var s := Site(false, false, [], None);
    var e := Working(device, filesystem).(connects := false, connectSticks := true, findsDevice := false);
    node := new Node(device, e, true, true, s);
    ok := node.NodeStageVolume(filesystem);
  }

  /** An execution that leaks a mount. */
  method LeakedMount(device: string) returns (ok: bool, node: Node)
    ensures !ok && node.mounts != []
  {
    var s := Site(false, false, [], None);
    var e := Working(device, "ext4").(mounts := false, mountSticks := true);
    node := new Node(device, e, true, true, s);
    ok := node.NodeStageVolume("ext4");
  }
}
