/** The state Dexter carries from cycle to cycle and from bailiff to
    bailiff, and how each step of `Dexter.topLevel` (and `setTag`) changes
    it. These functions are the specification the methods of
    `Agent.Dexter` are proved against. */
module Lifecycle {
  import opened Common
  import opened Selection
  import opened Hunting
  import opened Discovery

  /** The fields `tagged`, `isMoving`, `jumpCount`, `myBailiff`, `exBailiff`. */
  datatype AgentState = AgentState(
    tagged: bool,
    isMoving: bool,
    jumpCount: int,
    myBailiff: Option<HostId>,
    exBailiff: Option<HostId>
  )

  // ---------------------------------------------------------------------
  // Entry and tag state

  /** Entering `topLevel`: no longer moving, one more jump counted (a Java
      `int`, so the count wraps after INT32_MAX). */
  function EnterStep(s: AgentState): (r: AgentState)
    ensures !r.isMoving && InInt32(r.jumpCount)
    ensures InInt32(s.jumpCount) && s.jumpCount < INT32_MAX ==> r.jumpCount == s.jumpCount + 1
    ensures s.jumpCount == INT32_MAX ==> r.jumpCount == INT32_MIN
    ensures r.tagged == s.tagged && r.myBailiff == s.myBailiff && r.exBailiff == s.exBailiff
  {
    s.(isMoving := false, jumpCount := Wrap32(s.jumpCount + 1))
  }

  datatype TagOutcome = TagOutcome(state: AgentState, accepted: bool)

  /** `setTag(tag)`: tagging an agent that is moving is refused and changes
      nothing; any other request is applied and accepted. */
  function TagStep(s: AgentState, tag: bool): (r: TagOutcome)
    ensures r.accepted <==> !tag || !s.isMoving
    ensures r.accepted ==> r.state.tagged == tag
    ensures !r.accepted ==> r.state == s
    ensures r.state.(tagged := s.tagged) == s
  {
    if tag then
      if s.isMoving then TagOutcome(s, false) else TagOutcome(s.(tagged := tag), true)
    else
      TagOutcome(s.(tagged := tag), true)
  }

  // ---------------------------------------------------------------------
  // Hunt

  datatype HuntOutcome = HuntOutcome(state: AgentState, asked: seq<Uuid>)

  /** The hunt asks anyone at all only when the agent is tagged, sits on a
      bailiff, got the resident list, and that list has more than one entry. */
  predicate HuntRuns(s: AgentState, residents: Option<seq<Uuid>>) {
    s.tagged && s.myBailiff.Some? && residents.Some? && |residents.value| > 1
  }

  /** The hunt block of `topLevel`. `residents` is the answer of
      `getDexters()` after the shuffle (None when the call threw). */
  function HuntStep(s: AgentState, self: Uuid, residents: Option<seq<Uuid>>, reply: Uuid -> TagAnswer): (r: HuntOutcome)
    ensures r.state == s.(tagged := r.state.tagged)
    ensures r.state.tagged ==> s.tagged
    ensures !HuntRuns(s, residents) ==> r == HuntOutcome(s, [])
    ensures HuntRuns(s, residents) ==> r.asked == HuntCalls(self, residents.value, reply).asked
    ensures s.tagged && !r.state.tagged <==> HuntRuns(s, residents) && HuntCalls(self, residents.value, reply).passed
    ensures self !in r.asked
  {
    if s.tagged && s.myBailiff.Some? then
      match residents
      case None => HuntOutcome(s, [])
      case Some(targets) =>
        if |targets| > 1 then
          var h := HuntCalls(self, targets, reply);
          HuntOutcome(if h.passed then TagStep(s, false).state else s, h.asked)
        else
          HuntOutcome(s, [])
    else
      HuntOutcome(s, [])
  }

  // ---------------------------------------------------------------------
  // Branch decision

  /** What a cycle does with the selected target. `OccupancyFault` is the
      outer handler catching a fault of the current bailiff's
      `numberOfDexters()` in the stall test. */
  datatype Branch = AllFailed | Stay | Stall | Jump | OccupancyFault

  /** The if-chain after `getTargetBailiff`; `occupancy` is the answer of
      the current bailiff's `numberOfDexters()` (None when it threw), asked
      only when the agent is tagged and sits on a bailiff. */
  function Decide(s: AgentState, target: Option<HostId>, occupancy: Option<int>): (b: Branch)
    ensures b == AllFailed <==> target.None?
    ensures b == Stay <==> target.Some? && target == s.myBailiff
    ensures b == Jump ==> target.Some? && target != s.myBailiff
    ensures b == Stall <==> target.Some? && target != s.myBailiff && s.tagged && s.myBailiff.Some?
                            && occupancy.Some? && occupancy.value > 1
    ensures b == OccupancyFault <==> target.Some? && target != s.myBailiff && s.tagged && s.myBailiff.Some?
                                     && occupancy.None?
    ensures (!s.tagged || s.myBailiff.None?) && target.Some? && target != s.myBailiff ==> b == Jump
  {
    if target.None? then AllFailed
    else if target == s.myBailiff then Stay
    else if s.tagged && s.myBailiff.Some? then
      match occupancy
      case None => OccupancyFault
      case Some(n) => if n > 1 then Stall else Jump
    else Jump
  }

  // ---------------------------------------------------------------------
  // Migration attempt

  /** The remote calls a migration attempt makes on bailiffs. */
  datatype RemoteCall = DelDexter(host: HostId) | MigrateTo(host: HostId) | AddDexter(host: HostId)

  datatype Attempt = Attempt(state: AgentState, calls: seq<RemoteCall>, migrated: bool)

  /** The rollback block: go back to `exBailiff`, stop moving, and
      re-register there if it is known. */
  function Rollback(s: AgentState, calls: seq<RemoteCall>): (r: Attempt)
    ensures !r.migrated && !r.state.isMoving && r.state.myBailiff == s.exBailiff
    ensures r.state.myBailiff.Some? ==> r.calls == calls + [AddDexter(r.state.myBailiff.value)]
    ensures r.state.myBailiff.None? ==> r.calls == calls
  {
    var back := s.(myBailiff := s.exBailiff, isMoving := false);
    Attempt(back, calls + (if back.myBailiff.Some? then [AddDexter(back.myBailiff.value)] else []), false)
  }

  /** One migration attempt towards `target`. `del` is the outcome of
      `delDexter` on the current bailiff (asked only if there is one) and
      `mig` that of `migrate` on the target. A `delDexter` fault jumps
      straight to the rollback, skipping the `exBailiff` update. */
  function MigrateStep(s: AgentState, target: HostId, del: Reply, mig: Reply): (r: Attempt)
    ensures r.migrated <==> (s.myBailiff.None? || del.Ok?) && mig.Ok?
    ensures r.migrated ==> r.state == s.(exBailiff := s.myBailiff, myBailiff := Some(target), isMoving := true)
    ensures (s.myBailiff.None? || del.Ok?) && mig.Fault? ==>
            r.state == s.(exBailiff := s.myBailiff, isMoving := false)
    ensures s.myBailiff.Some? && del.Fault? ==> r.state == s.(myBailiff := s.exBailiff, isMoving := false)
    ensures !r.migrated ==> !r.state.isMoving
    ensures MigrateTo(target) in r.calls <==> s.myBailiff.None? || del.Ok?
    ensures s.myBailiff.Some? ==> |r.calls| > 0 && r.calls[0] == DelDexter(s.myBailiff.value)
    ensures !r.migrated && r.state.myBailiff.Some? ==> r.calls[|r.calls| - 1] == AddDexter(r.state.myBailiff.value)
  {
    var detach := if s.myBailiff.Some? then [DelDexter(s.myBailiff.value)] else [];
    if s.myBailiff.Some? && del.Fault? then
      Rollback(s, detach)
    else
      var moving := s.(exBailiff := s.myBailiff, myBailiff := Some(target), isMoving := true);
      var calls := detach + [MigrateTo(target)];
      assert MigrateTo(target) in calls;
      if mig.Ok? then Attempt(moving, calls, true) else Rollback(moving, calls)
  }

  /** A failed `migrate` restores the bailiff the agent was on, and the
      agent re-registers there. */
  lemma MigrateFaultRestoresHost(s: AgentState, target: HostId, del: Reply)
    requires s.myBailiff.None? || del.Ok?
    ensures var r := MigrateStep(s, target, del, Fault);
            && r.state.myBailiff == s.myBailiff && !r.state.isMoving && !r.migrated
            && r.calls == (if s.myBailiff.Some? then [DelDexter(s.myBailiff.value)] else [])
                          + [MigrateTo(target)]
                          + (if s.myBailiff.Some? then [AddDexter(s.myBailiff.value)] else [])
  {
  }

  /** As written, a `delDexter` fault rolls back to `exBailiff`, which still
      names the bailiff of the previous jump: the agent forgets the bailiff
      it is on and re-registers with an older one. */
  lemma DelFaultRestoresStaleHost()
    ensures var s := AgentState(false, false, 2, Some(7), Some(3));
            var r := MigrateStep(s, 9, Fault, Ok);
            && !r.migrated && r.state.myBailiff == Some(3) && r.state.myBailiff != s.myBailiff
            && r.calls == [DelDexter(7), AddDexter(3)]
  {
  }

  // ---------------------------------------------------------------------
  // One cycle of the for-loop

  /** The inputs one pass of the `for(;;)` body consumes: the answers of
      the remote calls and of the lookup service, and the shuffle. */
  datatype CycleInput = CycleInput(
    residents: Option<seq<Uuid>>,   // getDexters(), already shuffled; None on a fault
    reply: Uuid -> TagAnswer,       // tag(uuid)
    lookups: seq<seq<Candidate>>,   // successive SDM.lookup answers
    order: seq<HostId>,             // the shuffle of the scored bailiffs
    occupancy: Option<int>,         // numberOfDexters() of the current bailiff
    del: Reply,                     // delDexter on the current bailiff
    mig: Reply                      // migrate on the target
  )

  /** `Starved`: the supplied lookup answers ran out while all were empty
      (the agent would go on retrying). */
  datatype CycleOutcome = Starved | Looped(branch: Branch) | Migrated

  datatype CycleResult = CycleResult(state: AgentState, outcome: CycleOutcome, asked: seq<Uuid>, calls: seq<RemoteCall>)

  /** The supplied shuffle is one of the scored bailiffs as the selection
      of this cycle sees them (after the hunt). */
  ghost predicate CycleFits(s: AgentState, self: Uuid, input: CycleInput) {
    var h := HuntStep(s, self, input.residents, input.reply).state;
    var hit := FirstHit(input.lookups);
    hit.Some? ==> IsShuffleOf(input.order, Scores(input.lookups[hit.value], h.myBailiff, h.tagged))
  }

  /** One pass of the `for(;;)` body: hunt, discover, select, decide, and
      maybe attempt the migration. */
  function CycleStep(s: AgentState, self: Uuid, input: CycleInput): (r: CycleResult)
    requires CycleFits(s, self, input)
    ensures r.state.jumpCount == s.jumpCount
    ensures r.state.tagged ==> s.tagged
    ensures !s.isMoving ==> (r.state.isMoving <==> r.outcome == Migrated)
    ensures r.outcome == Migrated ==> r.state.myBailiff.Some? && r.state.myBailiff != r.state.exBailiff
    ensures r.outcome == Migrated ==> MigrateTo(r.state.myBailiff.value) in r.calls
    ensures self !in r.asked
  {
    var hunted := HuntStep(s, self, input.residents, input.reply);
    var h := hunted.state;
    match FirstHit(input.lookups)
    case None => CycleResult(h, Starved, hunted.asked, [])
    case Some(k) =>
      var target := Select(input.lookups[k], h.myBailiff, h.tagged, input.order);
      var branch := Decide(h, target, input.occupancy);
      if branch == Jump then
        var a := MigrateStep(h, target.value, input.del, input.mig);
        CycleResult(a.state, if a.migrated then Migrated else Looped(Jump), hunted.asked, a.calls)
      else
        CycleResult(h, Looped(branch), hunted.asked, [])
  }

  /** A cycle that migrates moves to the bailiff the selection chose,
      remembers the bailiff it left, and asked to migrate exactly once. */
  lemma MigratesToSelected(s: AgentState, self: Uuid, input: CycleInput)
    requires CycleFits(s, self, input)
    requires CycleStep(s, self, input).outcome == Migrated
    ensures var h := HuntStep(s, self, input.residents, input.reply).state;
            var k := FirstHit(input.lookups);
            var r := CycleStep(s, self, input);
            && k.Some?
            && r.state.myBailiff == Select(input.lookups[k.value], h.myBailiff, h.tagged, input.order)
            && r.state.exBailiff == s.myBailiff
            && r.state.tagged == h.tagged
            && r.calls == (if s.myBailiff.Some? then [DelDexter(s.myBailiff.value)] else [])
                          + [MigrateTo(r.state.myBailiff.value)]
  {
  }

  // ---------------------------------------------------------------------
  // The whole loop

  datatype RunResult = RunResult(state: AgentState, migrated: bool, cycles: nat)

  /** Every cycle's shuffle fits, for as long as the loop keeps going. */
  ghost predicate RunFits(s: AgentState, self: Uuid, inputs: seq<CycleInput>)
    decreases |inputs|
  {
    inputs == [] ||
    (CycleFits(s, self, inputs[0]) &&
     var c := CycleStep(s, self, inputs[0]);
     c.outcome.Looped? ==> RunFits(c.state, self, inputs[1..]))
  }

  /** The `for(;;)` loop over the supplied cycles: it ends when the agent
      migrates, or when a cycle's lookup answers or the cycles run out. */
  function Run(s: AgentState, self: Uuid, inputs: seq<CycleInput>): (r: RunResult)
    requires RunFits(s, self, inputs)
    ensures r.cycles <= |inputs|
    ensures r.cycles == 0 <==> inputs == []
    ensures r.state.jumpCount == s.jumpCount
    ensures r.state.tagged ==> s.tagged
    ensures !s.isMoving ==> (r.state.isMoving <==> r.migrated)
    ensures r.migrated ==> r.state.myBailiff.Some? && r.state.myBailiff != r.state.exBailiff
    decreases |inputs|
  {
    if inputs == [] then RunResult(s, false, 0)
    else
      var c := CycleStep(s, self, inputs[0]);
      if c.outcome.Looped? then
        var rest := Run(c.state, self, inputs[1..]);
        RunResult(rest.state, rest.migrated, rest.cycles + 1)
      else
        RunResult(c.state, c.outcome == Migrated, 1)
  }

  /** `t` lists the results of the first `|t|` cycles, each run from the
      state the one before it left (the first from `s`). */
  ghost predicate Chained(s: AgentState, self: Uuid, inputs: seq<CycleInput>, t: seq<CycleResult>) {
    && |t| <= |inputs|
    && (|t| > 0 ==> Follows(s, self, inputs[0], t[0]))
    && forall k :: 0 < k < |t| ==> Follows(t[k - 1].state, self, inputs[k], t[k])
  }

  /** `c` is the result of the cycle run on `input` from `before`. */
  ghost predicate Follows(before: AgentState, self: Uuid, input: CycleInput, c: CycleResult) {
    CycleFits(before, self, input) && c == CycleStep(before, self, input)
  }

  /** Putting one cycle in front of a chain that starts where it ends. */
  lemma ChainedCons(s: AgentState, self: Uuid, inputs: seq<CycleInput>, c: CycleResult, rest: seq<CycleResult>)
    requires inputs != [] && Follows(s, self, inputs[0], c)
    requires Chained(c.state, self, inputs[1..], rest)
    ensures Chained(s, self, inputs, [c] + rest)
  {
    var t := [c] + rest;
    assert t[0] == c;
    forall k | 0 < k < |t|
      ensures Follows(t[k - 1].state, self, inputs[k], t[k])
    {
      assert t[k] == rest[k - 1] && inputs[k] == inputs[1..][k - 1];
      if k > 1 {
        assert t[k - 1] == rest[k - 2];
      }
    }
  }

  /** The cycles the loop runs: it goes on while they loop and stops after
      the first that does not (a migration, or lookups that ran out). */
  ghost function Trace(s: AgentState, self: Uuid, inputs: seq<CycleInput>): (t: seq<CycleResult>)
    requires RunFits(s, self, inputs)
    ensures Chained(s, self, inputs, t)
    ensures forall k :: 0 <= k < |t| - 1 ==> t[k].outcome.Looped?
    decreases |inputs|
  {
    if inputs == [] then []
    else
      var c := CycleStep(s, self, inputs[0]);
      if c.outcome.Looped? then
        var rest := Trace(c.state, self, inputs[1..]);
        ChainedCons(s, self, inputs, c, rest);
        [c] + rest
      else
        ChainedCons(s, self, inputs, c, []);
        [c]
  }

  /** The loop ends at the first cycle that does not loop: it runs exactly
      the cycles of `Trace`, ends in the last one's state, has migrated
      iff that cycle migrated, and leaves inputs unused only after a cycle
      that did not loop. */
  lemma {:induction false} RunEndsAtFirstMigration(s: AgentState, self: Uuid, inputs: seq<CycleInput>)
    requires RunFits(s, self, inputs)
    ensures var r, t := Run(s, self, inputs), Trace(s, self, inputs);
            && r.cycles == |t|
            && (|t| == 0 ==> r.state == s && !r.migrated)
            && (|t| > 0 ==> r.state == t[|t| - 1].state && (r.migrated <==> t[|t| - 1].outcome == Migrated))
            && (|t| < |inputs| ==> |t| > 0 && !t[|t| - 1].outcome.Looped?)
    decreases |inputs|
  {
    if inputs != [] {
      var c := CycleStep(s, self, inputs[0]);
      if c.outcome.Looped? {
        RunEndsAtFirstMigration(c.state, self, inputs[1..]);
        var rest, r' := Trace(c.state, self, inputs[1..]), Run(c.state, self, inputs[1..]);
        var t := [c] + rest;
        assert Trace(s, self, inputs) == t;
        assert Run(s, self, inputs) == RunResult(r'.state, r'.migrated, r'.cycles + 1);
        if |rest| > 0 {
          assert t[|t| - 1] == rest[|rest| - 1];
        }
      } else {
        assert Trace(s, self, inputs) == [c];
        assert Run(s, self, inputs) == RunResult(c.state, c.outcome == Migrated, 1);
      }
    }
  }

  /** One invocation of `topLevel` (the launch, or a resumption after a
      jump): the entry step counts the jump, and the agent is still
      moving at the end exactly when it migrated. */
  lemma {:induction false} TopLevelInvariants(s: AgentState, self: Uuid, inputs: seq<CycleInput>)
    requires RunFits(EnterStep(s), self, inputs)
    ensures var r := Run(EnterStep(s), self, inputs);
            && r.state.jumpCount == Wrap32(s.jumpCount + 1)
            && (r.state.isMoving <==> r.migrated)
            && (r.migrated ==> r.state.myBailiff != r.state.exBailiff)
  {
  }
}
