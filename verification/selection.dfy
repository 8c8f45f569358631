/** Target selection (`Dexter.getTargetBailiff`): probe every service item,
    score the bailiffs that answered, then pick the most crowded one (when
    tagged) or the least crowded one (when not), walking the scored bailiffs
    in a shuffled order. This module is the specification; the method
    `Agent.Dexter.GetTargetBailiff` computes it with the source's loops. */
module Selection {
  import opened Common

  /** One service item returned by the lookup, with the answers its bailiff
      gave while it was probed. An item whose service is not a bailiff
      behaves like one whose ping failed. */
  datatype Candidate = Candidate(
    host: HostId,            // identity of the bailiff
    pinged: bool,            // ping() returned normally
    safe: Option<bool>,      // isSafe(), None when the call threw
    residents: Option<int>   // numberOfDexters(), None when the call threw
  )

  /** The candidate is entered into the score map: it answered the ping,
      reported its residents, and (untagged) declared itself safe. */
  predicate Scorable(c: Candidate, tagged: bool) {
    c.pinged && c.residents.Some? && (tagged || c.safe == Some(true))
  }

  /** The candidate is remembered as the fallback unsafe bailiff. */
  predicate Unsafe(c: Candidate, tagged: bool) {
    !tagged && c.pinged && c.safe == Some(false)
  }

  /** The score of a scorable candidate: its own departure is discounted
      on the bailiff the agent currently sits on. */
  function Adjusted(c: Candidate, current: Option<HostId>): int
    requires c.residents.Some?
  {
    if current == Some(c.host) then c.residents.value - 1 else c.residents.value
  }

  /** `counter`: the number of successful pings. */
  function Responded(cs: seq<Candidate>): (n: nat)
    ensures n <= |cs|
    ensures n == 0 <==> forall i :: 0 <= i < |cs| ==> !cs[i].pinged
  {
    if cs == [] then 0
    else Responded(cs[..|cs| - 1]) + (if cs[|cs| - 1].pinged then 1 else 0)
  }

  /** The `bailiffs` map after all candidates were probed: `HashMap.put`
      in candidate order, so a later entry for the same host overwrites. */
  function Scores(cs: seq<Candidate>, current: Option<HostId>, tagged: bool): (m: map<HostId, int>)
    ensures |m| <= |cs|
  {
    if cs == [] then map[]
    else
      var m := Scores(cs[..|cs| - 1], current, tagged);
      var c := cs[|cs| - 1];
      if Scorable(c, tagged) then m[c.host := Adjusted(c, current)] else m
  }

  /** `unsafeBfi`: the last candidate that answered the ping and declared
      itself unsafe (never set in tagged mode). */
  function LastUnsafe(cs: seq<Candidate>, tagged: bool): (r: Option<HostId>)
    ensures r.None? <==> forall i :: 0 <= i < |cs| ==> !Unsafe(cs[i], tagged)
    ensures r.Some? ==> exists i :: 0 <= i < |cs| && Unsafe(cs[i], tagged) && cs[i].host == r.value
                                    && forall j :: i < j < |cs| ==> !Unsafe(cs[j], tagged)
  {
    if cs == [] then None
    else if Unsafe(cs[|cs| - 1], tagged) then Some(cs[|cs| - 1].host)
    else LastUnsafe(cs[..|cs| - 1], tagged)
  }

  /** The comparison of the scan: strictly larger when tagged, strictly
      smaller when not. */
  predicate Improves(tagged: bool, score: int, best: int) {
    if tagged then score > best else score < best
  }

  /** The initial bound of the scan when the current bailiff is not scored. */
  function Sentinel(tagged: bool): int {
    if tagged then -1 else 99
  }

  /** `order` is the shuffled key list of the score map: every scored host
      exactly once. */
  ghost predicate IsShuffleOf(order: seq<HostId>, scores: map<HostId, int>) {
    && (forall i, j :: 0 <= i < j < |order| ==> order[i] != order[j])
    && (forall h :: h in order <==> h in scores)
  }

  /** The scan over the shuffled hosts: `best` is the running result and
      `bound` its score; a host replaces them only if it improves on `bound`. */
  function Scan(scores: map<HostId, int>, order: seq<HostId>, tagged: bool,
                best: Option<HostId>, bound: int): (r: Option<HostId>)
    requires forall h :: h in order ==> h in scores
    ensures r == best || (r.Some? && r.value in order)
    decreases |order|
  {
    if order == [] then best
    else if Improves(tagged, scores[order[0]], bound) then
      Scan(scores, order[1..], tagged, Some(order[0]), scores[order[0]])
    else
      Scan(scores, order[1..], tagged, best, bound)
  }

  /** Whether the current bailiff is among the scored hosts. */
  predicate CurrentScored(scores: map<HostId, int>, current: Option<HostId>) {
    current.Some? && current.value in scores
  }

  /** The result of `getTargetBailiff(svcItems, currentBfi)` with the
      agent's `tagged` flag and the shuffle `order`. */
  function Select(cs: seq<Candidate>, current: Option<HostId>, tagged: bool, order: seq<HostId>): (r: Option<HostId>)
    requires IsShuffleOf(order, Scores(cs, current, tagged))
    ensures r.Some? ==> r == current || r.value in Scores(cs, current, tagged) || r == LastUnsafe(cs, tagged)
  {
    var scores := Scores(cs, current, tagged);
    if Responded(cs) == 0 then None
    else if |scores| == 0 && current.Some? then current
    else if |scores| == 0 then LastUnsafe(cs, tagged)
    else if CurrentScored(scores, current) then Scan(scores, order, tagged, current, scores[current.value])
    else Scan(scores, order, tagged, None, Sentinel(tagged))
  }

  // ---------------------------------------------------------------------
  // Scoring

  /** A host is scored exactly when some candidate for it is scorable. */
  lemma {:induction false} ScoredHosts(cs: seq<Candidate>, current: Option<HostId>, tagged: bool, h: HostId)
    ensures h in Scores(cs, current, tagged) <==>
            exists i :: 0 <= i < |cs| && Scorable(cs[i], tagged) && cs[i].host == h
  {
    if cs != [] {
      var init := cs[..|cs| - 1];
      ScoredHosts(init, current, tagged, h);
      if h in Scores(cs, current, tagged) && !(Scorable(cs[|cs| - 1], tagged) && cs[|cs| - 1].host == h) {
        var i :| 0 <= i < |init| && Scorable(init[i], tagged) && init[i].host == h;
        assert cs[i] == init[i];
      }
      if exists i :: 0 <= i < |cs| && Scorable(cs[i], tagged) && cs[i].host == h {
        var i :| 0 <= i < |cs| && Scorable(cs[i], tagged) && cs[i].host == h;
        if i < |init| {
          assert init[i] == cs[i];
        }
      }
    }
  }

  /** The score of a host is that of its LAST scorable candidate: the
      residents it reported, minus one on the current bailiff. */
  lemma {:induction false} ScoreOfHost(cs: seq<Candidate>, current: Option<HostId>, tagged: bool, i: nat)
    requires i < |cs| && Scorable(cs[i], tagged)
    requires forall j :: i < j < |cs| && Scorable(cs[j], tagged) ==> cs[j].host != cs[i].host
    ensures cs[i].host in Scores(cs, current, tagged)
    ensures Scores(cs, current, tagged)[cs[i].host] ==
            if current == Some(cs[i].host) then cs[i].residents.value - 1 else cs[i].residents.value
  {
    var init := cs[..|cs| - 1];
    if i < |cs| - 1 {
      assert init[i] == cs[i];
      forall j | i < j < |init| && Scorable(init[j], tagged)
        ensures init[j].host != init[i].host
      {
        assert init[j] == cs[j];
      }
      ScoreOfHost(init, current, tagged, i);
    }
  }

  /** Hosts that never answered the ping are never scored. */
  lemma {:induction false} SilentHostNotScored(cs: seq<Candidate>, current: Option<HostId>, tagged: bool, h: HostId)
    requires forall i :: 0 <= i < |cs| && cs[i].host == h ==> !cs[i].pinged
    ensures h !in Scores(cs, current, tagged)
  {
    ScoredHosts(cs, current, tagged, h);
  }

  /** Untagged, only hosts that declared themselves safe are scored. */
  lemma {:induction false} UntaggedScoresOnlySafe(cs: seq<Candidate>, current: Option<HostId>, h: HostId)
    requires h in Scores(cs, current, false)
    ensures exists i :: 0 <= i < |cs| && cs[i].host == h && cs[i].pinged && cs[i].safe == Some(true)
  {
    ScoredHosts(cs, current, false, h);
  }

  /** A scored host implies a successful ping, so `counter` is positive. */
  lemma {:induction false} ScoredImpliesResponded(cs: seq<Candidate>, current: Option<HostId>, tagged: bool)
    requires |Scores(cs, current, tagged)| > 0
    ensures Responded(cs) > 0
  {
    var h :| h in Scores(cs, current, tagged);
    ScoredHosts(cs, current, tagged, h);
  }

  // ---------------------------------------------------------------------
  // The scan

  /** When no host of the order improves on `bound`, the scan keeps `best`. */
  lemma {:induction false} ScanKeepsBest(scores: map<HostId, int>, order: seq<HostId>, tagged: bool,
                                         best: Option<HostId>, bound: int)
    requires forall h :: h in order ==> h in scores
    requires forall j :: 0 <= j < |order| ==> !Improves(tagged, scores[order[j]], bound)
    ensures Scan(scores, order, tagged, best, bound) == best
    decreases |order|
  {
    if order != [] {
      assert !Improves(tagged, scores[order[0]], bound);
      forall j | 0 <= j < |order| - 1
        ensures !Improves(tagged, scores[order[1..][j]], bound)
      {
        assert order[1..][j] == order[j + 1];
      }
      ScanKeepsBest(scores, order[1..], tagged, best, bound);
    }
  }

  /** When some host improves on `bound`, the scan returns the host at
      index `i`: nothing in the order improves on its score, and it
      strictly improves on every host before it. */
  lemma {:induction false} ScanWinner(scores: map<HostId, int>, order: seq<HostId>, tagged: bool,
                                      best: Option<HostId>, bound: int) returns (i: nat)
    requires forall h :: h in order ==> h in scores
    requires exists j :: 0 <= j < |order| && Improves(tagged, scores[order[j]], bound)
    ensures i < |order| && Scan(scores, order, tagged, best, bound) == Some(order[i])
    ensures Improves(tagged, scores[order[i]], bound)
    ensures forall j :: 0 <= j < |order| ==> !Improves(tagged, scores[order[j]], scores[order[i]])
    ensures forall j :: 0 <= j < i ==> Improves(tagged, scores[order[i]], scores[order[j]])
    decreases |order|
  {
    var x, rest := order[0], order[1..];
    assert forall j :: 0 < j < |order| ==> order[j] == rest[j - 1];
    if Improves(tagged, scores[x], bound) {
      if exists j :: 0 <= j < |rest| && Improves(tagged, scores[rest[j]], scores[x]) {
        var k := ScanWinner(scores, rest, tagged, Some(x), scores[x]);
        i := k + 1;
        assert order[i] == rest[k];
      } else {
        ScanKeepsBest(scores, rest, tagged, Some(x), scores[x]);
        i := 0;
      }
    } else {
      var j0 :| 0 <= j0 < |order| && Improves(tagged, scores[order[j0]], bound);
      assert j0 > 0 && rest[j0 - 1] == order[j0];
      var k := ScanWinner(scores, rest, tagged, best, bound);
      i := k + 1;
      assert order[i] == rest[k];
    }
  }

  /** `h` has a largest score among the scored hosts. */
  ghost predicate IsMaximum(scores: map<HostId, int>, h: HostId) {
    h in scores && forall k :: k in scores ==> scores[k] <= scores[h]
  }

  /** `h` has a smallest score among the scored hosts. */
  ghost predicate IsMinimum(scores: map<HostId, int>, h: HostId) {
    h in scores && forall k :: k in scores ==> scores[h] <= scores[k]
  }

  /** `h` comes before every other host of `order` that has the same score. */
  ghost predicate FirstWithScore(scores: map<HostId, int>, order: seq<HostId>, h: HostId)
    requires forall x :: x in order ==> x in scores
  {
    exists i :: 0 <= i < |order| && order[i] == h && forall j :: 0 <= j < i ==> scores[order[j]] != scores[h]
  }

  // ---------------------------------------------------------------------
  // The decision

  /** With no successful ping the result is null; with pings but nothing
      scored it is the current bailiff if known, else the last unsafe one. */
  lemma {:induction false} SelectFallbacks(cs: seq<Candidate>, current: Option<HostId>, tagged: bool, order: seq<HostId>)
    requires IsShuffleOf(order, Scores(cs, current, tagged))
    ensures Responded(cs) == 0 ==> Select(cs, current, tagged, order) == None
    ensures Responded(cs) == 0 ==> |Scores(cs, current, tagged)| == 0 && LastUnsafe(cs, tagged) == None
    ensures Responded(cs) > 0 && |Scores(cs, current, tagged)| == 0 ==>
            Select(cs, current, tagged, order) == if current.Some? then current else LastUnsafe(cs, tagged)
  {
    if Responded(cs) == 0 && |Scores(cs, current, tagged)| != 0 {
      ScoredImpliesResponded(cs, current, tagged);
    }
  }

  /** Tagged: the result is a host with the largest score, the first such
      in the shuffle order unless it is the current bailiff, which no tie
      displaces. It is null only when the current bailiff is not scored
      and no score exceeds the `-1` sentinel. */
  lemma TaggedPicksMaximum(cs: seq<Candidate>, current: Option<HostId>, order: seq<HostId>)
    requires IsShuffleOf(order, Scores(cs, current, true))
    requires |Scores(cs, current, true)| > 0
    ensures var m, r := Scores(cs, current, true), Select(cs, current, true, order);
            && (r.Some? ==> IsMaximum(m, r.value))
            && (r.None? <==> !CurrentScored(m, current) && forall k :: k in m ==> m[k] <= -1)
            && (CurrentScored(m, current) && IsMaximum(m, current.value) ==> r == current)
            && (r.Some? && r != current ==> FirstWithScore(m, order, r.value))
  {
    var m := Scores(cs, current, true);
    ScoredImpliesResponded(cs, current, true);
    PicksExtreme(m, current, order, true);
  }

  /** Untagged: the result is a host with the smallest score, with the same
      tie rules. It is null when the current bailiff is not scored and
      every score is at least the `99` sentinel. */
  lemma UntaggedPicksMinimum(cs: seq<Candidate>, current: Option<HostId>, order: seq<HostId>)
    requires IsShuffleOf(order, Scores(cs, current, false))
    requires |Scores(cs, current, false)| > 0
    ensures var m, r := Scores(cs, current, false), Select(cs, current, false, order);
            && (r.Some? ==> IsMinimum(m, r.value))
            && (r.None? <==> !CurrentScored(m, current) && forall k :: k in m ==> m[k] >= 99)
            && (CurrentScored(m, current) && IsMinimum(m, current.value) ==> r == current)
            && (r.Some? && r != current ==> FirstWithScore(m, order, r.value))
  {
    var m := Scores(cs, current, false);
    ScoredImpliesResponded(cs, current, false);
    PicksExtreme(m, current, order, false);
  }

  /** The scan of `Select` over a non-empty score map, for either mode. */
  lemma PicksExtreme(m: map<HostId, int>, current: Option<HostId>, order: seq<HostId>, tagged: bool)
    requires IsShuffleOf(order, m)
    ensures var seeded := CurrentScored(m, current);
            var r := if seeded then Scan(m, order, tagged, current, m[current.value])
                     else Scan(m, order, tagged, None, Sentinel(tagged));
            && (r.Some? ==> if tagged then IsMaximum(m, r.value) else IsMinimum(m, r.value))
            && (r.None? <==> !seeded && forall k :: k in m ==> !Improves(tagged, m[k], Sentinel(tagged)))
            && (seeded && (if tagged then IsMaximum(m, current.value) else IsMinimum(m, current.value)) ==> r == current)
            && (r.Some? && r != current ==> FirstWithScore(m, order, r.value))
  {
    var seeded := CurrentScored(m, current);
    var best := if seeded then current else None;
    var bound := if seeded then m[current.value] else Sentinel(tagged);
    var r := Scan(m, order, tagged, best, bound);
    if exists j :: 0 <= j < |order| && Improves(tagged, m[order[j]], bound) {
      var i := ScanWinner(m, order, tagged, best, bound);
      forall k | k in m
        ensures if tagged then m[k] <= m[order[i]] else m[order[i]] <= m[k]
      {
        var j :| 0 <= j < |order| && order[j] == k;
      }
      assert FirstWithScore(m, order, order[i]);
      if seeded {
        assert !(if tagged then IsMaximum(m, current.value) else IsMinimum(m, current.value));
      }
    } else {
      ScanKeepsBest(m, order, tagged, best, bound);
      forall k | k in m
        ensures !Improves(tagged, m[k], bound)
      {
        var j :| 0 <= j < |order| && order[j] == k;
      }
    }
  }

  /** Whatever is selected answered the ping, unless it is the current
      bailiff (kept when nothing was scored). An unscored, non-current
      result is the unsafe fallback. */
  lemma SelectedHostAnswered(cs: seq<Candidate>, current: Option<HostId>, tagged: bool, order: seq<HostId>)
    requires IsShuffleOf(order, Scores(cs, current, tagged))
    ensures var r := Select(cs, current, tagged, order);
            r.Some? && r != current ==> exists i :: 0 <= i < |cs| && cs[i].host == r.value && cs[i].pinged
    ensures var r, m := Select(cs, current, tagged, order), Scores(cs, current, tagged);
            r.Some? && r != current && r.value !in m ==>
              !tagged && current.None? && |m| == 0 && r == LastUnsafe(cs, tagged)
  {
    var m := Scores(cs, current, tagged);
    var r := Select(cs, current, tagged, order);
    if |m| > 0 {
      ScoredImpliesResponded(cs, current, tagged);
      PicksExtreme(m, current, order, tagged);
      if r.Some? && r != current {
        ScoredHosts(cs, current, tagged, r.value);
      }
    }
  }
}
