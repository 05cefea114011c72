/**
 What the fencing protocol can always still do: from every reachable state in which the agent
 is idle over an existing target, an undisturbed reconcile grants or revokes access, a
 publish can succeed, and an administrator's takeover can move the volume to another node.
 */
module FencingProgress {
  import opened Options
  import opened Runs
  import opened Fencing

  ghost predicate Continues(run: seq<State>, longer: seq<State>, s: State) {
    run <= longer && IsRun(longer) && Last(longer) == s
  }

  lemma Extended(run: seq<State>, s': State, step: Step) returns (longer: seq<State>)
    requires IsRun(run) && Next(Last(run), s', step)
    ensures Continues(run, longer, s')
  {
    longer := run + [s'];
    forall i | 0 <= i < |longer| - 1
      ensures Steps(longer[i], longer[i + 1])
    {
      if i < |run| - 1 {
        assert Steps(run[i], run[i + 1]);
      } else {
        assert Next(longer[i], longer[i + 1], step);
      }
    }
  }

  lemma AgentStepExtends(run: seq<State>, s': State, step: AgentStep) returns (longer: seq<State>)
    requires IsRun(run) && AgentNext(Last(run), s', step)
    ensures Continues(run, longer, s')
  {
    longer := Extended(run, s', AgentActs(step));
  }

  // ---------------------------------------------------------------- the host switch

  lemma {:induction false} RevokeAll(run: seq<State>) returns (longer: seq<State>)
    requires IsRun(run) && Last(run).agent.Revoke?
    ensures Continues(run, longer, Last(run).(agent := Grant(Last(run).agent.goal),
                                              target := Last(run).target.(hosts := Last(run).target.hosts - Last(run).agent.stale)))
    decreases |Last(run).agent.stale|
  {
    var s := Last(run);
    if s.agent.stale == {} {
      longer := AgentStepExtends(run, s.(agent := Grant(s.agent.goal)), Switch(RevocationDone, true, true));
      assert s.target.hosts - s.agent.stale == s.target.hosts;
    } else {
      var h :| h in s.agent.stale;
      var rest := s.agent.stale - {h};
      var next := s.(agent := Revoke(s.agent.goal, rest), target := s.target.(hosts := s.target.hosts - {h}));
      var mid := AgentStepExtends(run, next, Switch(RemoveHost(h), true, true));
      longer := RevokeAll(mid);
      assert next.target.hosts - rest == s.target.hosts - s.agent.stale;
    }
  }

  /** The target once a switch has succeeded. */
  function Switched(s: State, goal: Goal): Target {
    Target(true, Wanted(goal), s.backend.Kernel? || s.target.linked)
  }

  lemma FinishSwitch(run: seq<State>) returns (longer: seq<State>)
    requires IsRun(run) && Last(run).agent.Grant? && Last(run).target.present && Last(run).target.hosts == {}
    ensures Continues(run, longer, Last(run).(agent := Report(Last(run).agent.goal), target := Switched(Last(run), Last(run).agent.goal)))
  {
    var s := Last(run);
    var goal := s.agent.goal;
    var granted := s.target.(hosts := Wanted(goal));
    assert s.target.hosts + Wanted(goal) == Wanted(goal);
    var after := s.(agent := if s.backend.Kernel? then Reconnect(goal) else Report(goal), target := granted);
    longer := AgentStepExtends(run, after, Switch(AddHost, true, true));
    if s.backend.Kernel? {
      longer := AgentStepExtends(longer, after.(agent := Report(goal), target := granted.(linked := true)), Switch(Relink, true, true));
    }
  }

  lemma StartSwitch(run: seq<State>) returns (longer: seq<State>)
    requires IsRun(run) && Last(run).agent.Inspect? && Last(run).target.present
    requires Last(run).target.hosts != Wanted(Last(run).agent.goal)
    ensures |longer| > 0 && Last(longer).target.present && Last(longer).target.hosts == {}
    ensures Continues(run, longer, Last(run).(agent := Grant(Last(run).agent.goal), target := Last(longer).target))
    ensures Last(run).backend.Spdk? ==> Last(longer).target.linked == Last(run).target.linked
  {
    var s := Last(run);
    var goal, stale := s.agent.goal, s.target.hosts;
    var first := s.(agent := if s.backend.Kernel? then Disconnect(goal, stale) else Revoke(goal, stale));
    longer := AgentStepExtends(run, first, InspectHosts);
    if s.backend.Kernel? {
      longer := AgentStepExtends(longer, first.(agent := Revoke(goal, stale), target := s.target.(linked := false)), Switch(Unlink, true, true));
    }
    assert stale - stale == {};
    longer := RevokeAll(longer);
  }

  /** From any host set the switch reaches exactly the wanted one. */
  lemma SwitchHosts(run: seq<State>) returns (longer: seq<State>)
    requires IsRun(run) && Last(run).agent.Inspect? && Last(run).target.present
    ensures Continues(run, longer, Last(run).(agent := Report(Last(run).agent.goal), target := Switched(Last(run), Last(run).agent.goal)))
  {
    var s := Last(run);
    if s.target.hosts == Wanted(s.agent.goal) {
      longer := AgentStepExtends(run, s.(agent := Report(s.agent.goal), target := Switched(s, s.agent.goal)), InspectHosts);
    } else {
      longer := StartSwitch(run);
      longer := FinishSwitch(longer);
    }
  }

  // ---------------------------------------------------------------- reconciles

  /** The agent is idle over an existing target of a partition that is staying. */
  predicate Serving(s: State) {
    s.agent.Idle? && s.target.present && !s.partitionDeleting && !s.partitionGone
  }

  lemma FetchAndSwitch(run: seq<State>) returns (longer: seq<State>)
    requires IsRun(run) && Serving(Last(run)) && Last(run).slot.Some?
    ensures Continues(run, longer, Last(run).(agent := AfterSwitch(Access(Last(run).slot)), target := Switched(Last(run), Access(Last(run).slot))))
  {
    var s := Last(run);
    var goal := Access(s.slot);
    longer := AgentStepExtends(run, s.(agent := Fetch), Start);
    longer := AgentStepExtends(longer, s.(agent := Inspect(goal)), FetchAttachment);
    longer := SwitchHosts(longer);
    longer := AgentStepExtends(longer, s.(agent := AfterSwitch(goal), target := Switched(s, goal)), ReportVia(Outcome));
  }

  function Granted(s: State, a: Attachment): State {
    s.(slot := Some(a.(observed := Some(a.id), ready := true)),
       target := Target(true, {a.host}, s.backend.Kernel? || s.target.linked))
  }

  /** An undisturbed reconcile authorizes the record's host and reports it ready. */
  lemma ReconcileGrants(run: seq<State>) returns (longer: seq<State>)
    requires IsRun(run) && Serving(Last(run)) && Last(run).slot.Some?
    requires Authorizable(Last(run).slot.value) && !Last(run).slot.value.deleting
    ensures Continues(run, longer, Granted(Last(run), Last(run).slot.value))
  {
    var s := Last(run);
    var a := s.slot.value;
    longer := FetchAndSwitch(run);
    var t := s.(target := Switched(s, Access(s.slot)));
    longer := AgentStepExtends(longer, t.(agent := PatchStatus(a, true, a)), ReportVia(ReadStatus));
    longer := AgentStepExtends(longer, Granted(s, a), ReportVia(WriteStatus));
  }

  function Revoked(s: State): State {
    s.(slot := None, target := Target(true, {}, s.backend.Kernel? || s.target.linked))
  }

  /** An undisturbed reconcile of a record being deleted revokes its host and lets it go. */
  lemma ReconcileReleases(run: seq<State>) returns (longer: seq<State>)
    requires IsRun(run) && Serving(Last(run)) && Last(run).slot.Some?
    requires Last(run).slot.value.deleting && Last(run).slot.value.finalizer
    ensures Continues(run, longer, Revoked(Last(run)))
  {
    longer := FetchAndSwitch(run);
    longer := AgentStepExtends(longer, Revoked(Last(run)), ReportVia(StripFinalizer));
  }

  // ---------------------------------------------------------------- publishing

  lemma {:induction false} Above(ids: set<nat>) returns (id: nat)
    ensures forall i :: i in ids ==> i < id
    decreases |ids|
  {
    id := 0;
    if ids != {} {
      var i :| i in ids;
      var rest := Above(ids - {i});
      id := if rest > i then rest else i + 1;
      assert forall j :: j in ids ==> j == i || j in ids - {i};
    }
  }

  lemma CallExtends(run: seq<State>, s': State, c: nat, step: CsiStep) returns (longer: seq<State>)
    requires IsRun(run) && CsiNext(Last(run), s', c, step)
    ensures Continues(run, longer, s')
  {
    longer := Extended(run, s', CsiActs(c, step));
  }

  /** Call `c` has published `node`: its record is ready and the target authorizes that node only. */
  ghost predicate HasPublished(s: State, c: nat, node: string) {
    && c in s.calls && s.calls[c].Published? && s.calls[c].node == node
    && GrantedTo(s, node, s.calls[c].id)
  }

  lemma CreateRecord(run: seq<State>, c: nat, node: string) returns (longer: seq<State>, id: nat)
    requires IsRun(run) && Last(run).slot.None? && c in Last(run).calls && Last(run).calls[c] == PublishCreate(node)
    ensures id !in Last(run).issued
    ensures Continues(run, longer, WithCall(Last(run), c, WaitReady(node, id))
                                   .(slot := Some(Attachment(id, true, node, HostNqn(node), true, false, None, None, false)),
                                     issued := Last(run).issued[id := node]))
  {
    var s := Last(run);
    id := Above(s.issued.Keys);
    var s' := WithCall(s, c, WaitReady(node, id))
              .(slot := Some(Attachment(id, true, node, HostNqn(node), true, false, None, None, false)), issued := s.issued[id := node]);
    assert CsiNext(s, s', c, Advance);
    longer := CallExtends(run, s', c, Advance);
  }

  /** A publish that finds no record can succeed. */
  lemma PublishWithoutRecord(run: seq<State>, c: nat, node: string) returns (longer: seq<State>)
    requires IsRun(run) && Serving(Last(run)) && Last(run).slot.None?
    requires c in Last(run).calls && Last(run).calls[c] == PublishGet(node)
    ensures run <= longer && IsRun(longer) && HasPublished(Last(longer), c, node)
  {
    var s := Last(run);
    longer := CallExtends(run, WithCall(s, c, PublishCreate(node)), c, Advance);
    var id;
    longer, id := CreateRecord(longer, c, node);
    longer := ReconcileGrants(longer);
    var granted := Last(longer);
    longer := CallExtends(longer, WithCall(granted, c, Published(node, id)), c, Advance);
  }

  /** From every reachable serving state without a record, a new publish can succeed. */
  lemma PublishCanSucceed(run: seq<State>, c: nat, node: string) returns (longer: seq<State>)
    requires IsRun(run) && Serving(Last(run)) && Last(run).slot.None? && c !in Last(run).calls
    ensures run <= longer && IsRun(longer) && HasPublished(Last(longer), c, node)
  {
    longer := CallExtends(run, WithCall(Last(run), c, PublishFind(node)), c, Begin(PublishFind(node)));
    longer := CallExtends(longer, WithCall(Last(run), c, PublishGet(node)), c, Advance);
    longer := PublishWithoutRecord(longer, c, node);
  }

  /** From every reachable serving state in which the volume is attached to another node, the
      takeover annotation lets a new publish move it. */
  lemma TakeoverCanSucceed(run: seq<State>, c: nat, node: string) returns (longer: seq<State>)
    requires IsRun(run) && Serving(Last(run)) && c !in Last(run).calls && Last(run).slot.Some?
    requires Authorizable(Last(run).slot.value) && !Last(run).slot.value.deleting && Last(run).slot.value.node != node
    ensures run <= longer && IsRun(longer) && HasPublished(Last(longer), c, node)
  {
    var s := Last(run);
    var a := s.slot.value.(forceDetach := Some(s.slot.value.node));
    var t := s.(slot := Some(a));
    longer := Extended(run, t, Annotate(a.node));
    longer := CallExtends(longer, WithCall(t, c, PublishFind(node)), c, Begin(PublishFind(node)));
    longer := CallExtends(longer, WithCall(t, c, PublishGet(node)), c, Advance);
    longer := CallExtends(longer, WithCall(t, c, PublishForceDelete(node)), c, Advance);
    var marked := WithCall(t, c, PublishWaitDeleted(node)).(slot := Some(a.(deleting := true)));
    longer := CallExtends(longer, marked, c, Advance);
    longer := ReconcileReleases(longer);
    longer := CallExtends(longer, WithCall(Revoked(marked), c, PublishGet(node)), c, Advance);
    longer := PublishWithoutRecord(longer, c, node);
  }
}
