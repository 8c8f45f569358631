/** The agent object `Dexter`: its configuration and the fields its
    `topLevel` loop updates, with methods that follow the source statement by
    statement and are proved against the step functions of `Lifecycle`,
    `Selection` and `Discovery`. Remote calls are replaced by their answers,
    supplied as parameters. */
module Agent {
  import opened Common
  import opened Selection
  import opened Hunting
  import opened Discovery
  import opened Lifecycle

  class Dexter {
    /** Assigned once by the constructor and carried along by every jump. */
    const uuid: Uuid

    var debug: bool
    var id: string
    var restraintSleepMs: int
    var jumpCount: int
    var retrySleep: int
    var maxResults: int
    var tagged: bool
    var isMoving: bool
    var myBailiff: Option<HostId>
    var exBailiff: Option<HostId>
    var stayPeriod: int

    /** The state the loop carries, as a value. */
    function State(): AgentState
      reads this
    {
      AgentState(tagged, isMoving, jumpCount, myBailiff, exBailiff)
    }

    /** `new Dexter()`: default configuration, untagged, on no bailiff.
        `uuid` stands for `UUID.randomUUID()`. */
    constructor (uuid: Uuid)
      ensures this.uuid == uuid
      ensures !debug && id == "anon" && restraintSleepMs == 5000 && retrySleep == 20000
      ensures maxResults == 8 && stayPeriod == 12000
      ensures State() == AgentState(false, false, 0, None, None)
    {
      this.uuid := uuid;
      debug := false;
      id := "anon";
      restraintSleepMs := 5000;
      jumpCount := 0;
      retrySleep := 20 * 1000;
      maxResults := 8;
      tagged := false;
      isMoving := false;
      myBailiff := None;
      exBailiff := None;
      stayPeriod := 12 * 1000;
    }

    // -------------------------------------------------------------------
    // Configuration

    /** A null id is stored as the empty string. */
    method SetId(id: Option<string>)
      modifies this`id
      ensures id.Some? ==> this.id == id.value
      ensures id.None? ==> this.id == ""
    {
      this.id := if id.Some? then id.value else "";
    }

    method SetRestraintSleep(ms: int)
      modifies this`restraintSleepMs
      ensures restraintSleepMs == Clamp(ms)
    {
      restraintSleepMs := Clamp(ms);
    }

    method SetRetrySleep(ms: int)
      modifies this`retrySleep
      ensures retrySleep == Clamp(ms)
    {
      retrySleep := Clamp(ms);
    }

    method SetStayPeriod(ms: int)
      modifies this`stayPeriod
      ensures stayPeriod == Clamp(ms)
    {
      stayPeriod := Clamp(ms);
    }

    method SetMaxResults(n: int)
      modifies this`maxResults
      ensures maxResults == Clamp(n)
    {
      maxResults := Clamp(n);
    }

    method SetDebug(isDebugged: bool)
      modifies this`debug
      ensures debug == isDebugged
    {
      debug := isDebugged;
    }

    // -------------------------------------------------------------------
    // Tag state

    method SetTag(tag: bool) returns (accepted: bool)
      modifies this`tagged
      ensures TagOutcome(State(), accepted) == TagStep(old(State()), tag)
    {
      if tag {
        if isMoving {
          accepted := false;
        } else {
          tagged := tag;
          accepted := true;
        }
      } else {
        tagged := tag;
        accepted := true;
      }
    }

    // -------------------------------------------------------------------
    // Steps of topLevel

    /** The first two statements of `topLevel`. */
    method Enter()
      modifies this`isMoving, this`jumpCount
      ensures State() == EnterStep(old(State()))
    {
      isMoving := false;
      jumpCount := Wrap32(jumpCount + 1);
    }

    /** The hunt block. `residents` is the shuffled answer of
        `getDexters()` (None when it threw), `reply` the bailiff's answer
        to `tag`; `asked` lists the residents `tag` was called for. */
    method Hunt(residents: Option<seq<Uuid>>, reply: Uuid -> TagAnswer) returns (asked: seq<Uuid>)
      modifies this`tagged
      ensures HuntOutcome(State(), asked) == HuntStep(old(State()), uuid, residents, reply)
    {
      asked := [];
      if tagged && myBailiff.Some? {
        match residents {
          case None =>  // getDexters() threw
          case Some(targets) =>
            if |targets| > 1 {
              var passed;
              asked, passed := AskResidents(targets, reply);
              if passed {
                var _ := SetTag(false);
              }
            }
        }
      }
    }

    /** The for-loop of the hunt: ask the bailiff to tag each resident but
        this agent, in order, until one accepts (the tag has `passed`) or a
        call throws, which leaves the loop as well. */
    method AskResidents(targets: seq<Uuid>, reply: Uuid -> TagAnswer) returns (asked: seq<Uuid>, passed: bool)
      ensures HuntResult(asked, passed) == HuntCalls(uuid, targets, reply)
    {
      asked, passed := [], false;
      var i := 0;
      while i < |targets|
        invariant 0 <= i <= |targets|
        invariant asked == Others(uuid, targets[..i])
        invariant DeclinedBefore(uuid, targets, reply, i)
      {
        OthersSnoc(uuid, targets[..i], targets[i]);
        assert targets[..i + 1] == targets[..i] + [targets[i]];
        if targets[i] != uuid {
          var answer := reply(targets[i]);
          asked := asked + [targets[i]];
          if answer == Accepted {
            HuntStopsAtFirstDecisive(uuid, targets, reply, i);
            passed := true;
            return;
          } else if answer == TagFault {
            HuntStopsAtFirstDecisive(uuid, targets, reply, i);
            return;
          }
        }
        i := i + 1;
      }
      assert targets[..i] == targets;
      HuntAllDeclined(uuid, targets, reply);
    }

    /** The discovery do-while: query until an answer is non-empty, with no
        sleep before the first query and `retrySleep` before each later
        one (none at all when it is 0). `lookups` holds the successive
        answers; when they run out, nothing is found. */
    method Discover(lookups: seq<seq<Candidate>>) returns (found: Option<seq<Candidate>>, queries: nat, naps: seq<int>)
      ensures found.None? <==> FirstHit(lookups).None?
      ensures found.Some? ==> found.value == lookups[FirstHit(lookups).value] && found.value != []
      ensures found.Some? ==> queries == FirstHit(lookups).value + 1
      ensures found.None? ==> queries == |lookups|
      ensures |naps| == if retrySleep > 0 && queries > 0 then queries - 1 else 0
      ensures forall k :: 0 <= k < |naps| ==> naps[k] == retrySleep
    {
      var retryInterval := 0;
      found, queries, naps := None, 0, [];
      while queries < |lookups|
        invariant queries <= |lookups|
        invariant forall k :: 0 <= k < queries ==> lookups[k] == []
        invariant retryInterval == if queries == 0 then 0 else retrySleep
        invariant |naps| == if retrySleep > 0 && queries > 0 then queries - 1 else 0
        invariant forall k :: 0 <= k < |naps| ==> naps[k] == retrySleep
        invariant found.None?
      {
        if 0 < retryInterval {
          naps := naps + [retryInterval];
        }
        var items := lookups[queries];
        queries := queries + 1;
        retryInterval := retrySleep;
        if items != [] {
          found := Some(items);
          return;
        }
      }
    }

    /** `getTargetBailiff`: probe and score the candidates, then scan the
        scored bailiffs in the shuffled `order`. Reads `tagged`. */
    method GetTargetBailiff(cs: seq<Candidate>, current: Option<HostId>, order: seq<HostId>) returns (r: Option<HostId>)
      requires IsShuffleOf(order, Scores(cs, current, tagged))
      ensures r == Select(cs, current, tagged, order)
    {
      var bailiffs, counter, unsafeBfi := Probe(cs, current);
      if counter == 0 {
        return None;
      } else if |bailiffs| == 0 && current.Some? {
        return current;
      } else if |bailiffs| == 0 && current.None? {
        return unsafeBfi;
      }

      var seeded := current.Some? && current.value in bailiffs;
      if tagged {
        r := if seeded then current else None;
        var max := if seeded then bailiffs[current.value] else -1;
        for j := 0 to |order|
          invariant Scan(bailiffs, order[j..], tagged, r, max) == Select(cs, current, tagged, order)
        {
          assert order[j..][1..] == order[j + 1..];
          if bailiffs[order[j]] > max {
            r := Some(order[j]);
            max := bailiffs[order[j]];
          }
        }
      } else {
        r := if seeded then current else None;
        var min := if seeded then bailiffs[current.value] else 99;
        for j := 0 to |order|
          invariant Scan(bailiffs, order[j..], tagged, r, min) == Select(cs, current, tagged, order)
        {
          assert order[j..][1..] == order[j + 1..];
          if bailiffs[order[j]] < min {
            r := Some(order[j]);
            min := bailiffs[order[j]];
          }
        }
      }
    }

    /** The probing loop of `getTargetBailiff`: ping every item and build
        the score map, the count of answers and the unsafe fallback. */
    method Probe(cs: seq<Candidate>, current: Option<HostId>)
      returns (bailiffs: map<HostId, int>, counter: nat, unsafeBfi: Option<HostId>)
      ensures bailiffs == Scores(cs, current, tagged)
      ensures counter == Responded(cs)
      ensures unsafeBfi == LastUnsafe(cs, tagged)
    {
      bailiffs, counter, unsafeBfi := map[], 0, None;
      for i := 0 to |cs|
        invariant bailiffs == Scores(cs[..i], current, tagged)
        invariant counter == Responded(cs[..i])
        invariant unsafeBfi == LastUnsafe(cs[..i], tagged)
      {
        assert cs[..i + 1][..i] == cs[..i];
        var c := cs[i];
        var accepted := c.pinged;
        if accepted {
          counter := counter + 1;
        }
        if tagged {
          if accepted {
            match c.residents {
              case Some(n) =>
                bailiffs := bailiffs[c.host := if current == Some(c.host) then n - 1 else n];
              case None =>  // numberOfDexters() threw
            }
          }
        } else {
          if accepted && c.safe == Some(true) {
            match c.residents {
              case Some(n) =>
                bailiffs := bailiffs[c.host := if current == Some(c.host) then n - 1 else n];
              case None =>
            }
          } else if accepted && c.safe == Some(false) {
            unsafeBfi := Some(c.host);
          }
        }
      }
      assert cs[..|cs|] == cs;
    }

    /** The migration attempt and its rollback. `del` is the answer of
        `delDexter` on the current bailiff, `mig` that of `migrate` on the
        target; `migrated` means this execution ends here. */
    method AttemptMigration(target: HostId, del: Reply, mig: Reply) returns (calls: seq<RemoteCall>, migrated: bool)
      modifies this`myBailiff, this`exBailiff, this`isMoving
      ensures Attempt(State(), calls, migrated) == MigrateStep(old(State()), target, del, mig)
    {
      calls, migrated := [], false;
      var fault := false;
      if myBailiff.Some? {
        calls := calls + [DelDexter(myBailiff.value)];
        fault := del.Fault?;
      }
      if !fault {
        exBailiff := myBailiff;
        myBailiff := Some(target);
        isMoving := true;
        calls := calls + [MigrateTo(target)];
        if mig.Ok? {
          migrated := true;
          return;
        }
      }
      myBailiff := exBailiff;
      isMoving := false;
      if myBailiff.Some? {
        calls := calls + [AddDexter(myBailiff.value)];
      }
    }

    /** One pass of the `for(;;)` body. */
    method Cycle(input: CycleInput) returns (outcome: CycleOutcome, asked: seq<Uuid>, calls: seq<RemoteCall>)
      requires CycleFits(State(), uuid, input)
      modifies this`tagged, this`myBailiff, this`exBailiff, this`isMoving
      ensures CycleResult(State(), outcome, asked, calls) == CycleStep(old(State()), uuid, input)
    {
      asked := Hunt(input.residents, input.reply);
      calls := [];
      var found, queries, naps := Discover(input.lookups);
      if found.None? {
        outcome := Starved;
        return;
      }
      var target := GetTargetBailiff(found.value, myBailiff, input.order);
      if target.None? {
        outcome := Looped(AllFailed);
      } else if target == myBailiff {
        outcome := Looped(Stay);
      } else if tagged && myBailiff.Some? && input.occupancy.None? {
        outcome := Looped(OccupancyFault);  // numberOfDexters() threw
      } else if tagged && myBailiff.Some? && input.occupancy.value > 1 {
        outcome := Looped(Stall);
      } else {
        var migrated;
        calls, migrated := AttemptMigration(target.value, input.del, input.mig);
        outcome := if migrated then Migrated else Looped(Jump);
      }
    }

    /** `topLevel`: the entry step, then the `for(;;)` loop over the
        supplied cycles until the agent migrates or the inputs run out. */
    method TopLevel(inputs: seq<CycleInput>) returns (migrated: bool, cycles: nat)
      requires RunFits(EnterStep(State()), uuid, inputs)
      modifies this`tagged, this`isMoving, this`jumpCount, this`myBailiff, this`exBailiff
      ensures RunResult(State(), migrated, cycles) == Run(EnterStep(old(State())), uuid, inputs)
    {
      Enter();
      ghost var start := State();
      migrated, cycles := false, 0;
      while cycles < |inputs|
        invariant cycles <= |inputs|
        invariant !migrated
        invariant RunFits(State(), uuid, inputs[cycles..])
        invariant var rest := Run(State(), uuid, inputs[cycles..]);
                  Run(start, uuid, inputs) == RunResult(rest.state, rest.migrated, cycles + rest.cycles)
      {
        assert inputs[cycles..][0] == inputs[cycles];
        assert inputs[cycles..][1..] == inputs[cycles + 1..];
        var outcome, asked, calls := Cycle(inputs[cycles]);
        cycles := cycles + 1;
        if !outcome.Looped? {
          migrated := outcome == Migrated;
          return;
        }
      }
    }
  }
}
