/** Worked examples of selection, hunt and migration on small, concrete
    inputs, derived from the general lemmas. Bailiffs are numbered; the
    agent sits on bailiff 1 unless said otherwise. */
module Scenarios {
  import opened Common
  import opened Selection
  import opened Hunting
  import opened Lifecycle

  /** Untagged: bailiff 1 (current, 3 residents) scores 2, bailiff 2
      (1 resident) scores 1, bailiff 3 does not answer. Bailiff 2 is
      chosen whatever the shuffle. */
  lemma EvadeToQuieterHost(order: seq<HostId>)
    requires IsShuffleOf(order, Scores([Candidate(1, true, Some(true), Some(3)),
                                        Candidate(2, true, Some(true), Some(1)),
                                        Candidate(3, false, None, None)], Some(1), false))
    ensures Select([Candidate(1, true, Some(true), Some(3)),
                    Candidate(2, true, Some(true), Some(1)),
                    Candidate(3, false, None, None)], Some(1), false, order) == Some(2)
  {
    var cs := [Candidate(1, true, Some(true), Some(3)),
               Candidate(2, true, Some(true), Some(1)),
               Candidate(3, false, None, None)];
    assert cs[..2][..1] == [cs[0]] && cs[..2][..0] == [] && cs[..|cs| - 1] == cs[..2];
    assert Scores([cs[0]], Some(1), false) == map[1 := 2];
    assert Scores(cs[..2], Some(1), false) == map[1 := 2, 2 := 1];
    assert Scores(cs, Some(1), false) == map[1 := 2, 2 := 1];
    UntaggedPicksMinimum(cs, Some(1), order);
    var m := Scores(cs, Some(1), false);
    assert CurrentScored(m, Some(1));
    var r := Select(cs, Some(1), false, order);
    assert IsMinimum(m, r.value) && m[r.value] <= m[2];
  }

  /** Tagged: bailiff 1 (current, 2 residents) scores 1, bailiff 2
      (5 residents) scores 5. Bailiff 2 is chosen. */
  lemma HuntTowardsCrowd(order: seq<HostId>)
    requires IsShuffleOf(order, Scores([Candidate(1, true, None, Some(2)),
                                        Candidate(2, true, None, Some(5))], Some(1), true))
    ensures Select([Candidate(1, true, None, Some(2)),
                    Candidate(2, true, None, Some(5))], Some(1), true, order) == Some(2)
  {
    var cs := [Candidate(1, true, None, Some(2)), Candidate(2, true, None, Some(5))];
    assert cs[..1] == [cs[0]] && cs[..1][..0] == [];
    assert Scores(cs[..1], Some(1), true) == map[1 := 1];
    assert Scores(cs, Some(1), true) == map[1 := 1, 2 := 5];
    TaggedPicksMaximum(cs, Some(1), order);
    var m := Scores(cs, Some(1), true);
    assert CurrentScored(m, Some(1));
    var r := Select(cs, Some(1), true, order);
    assert IsMaximum(m, r.value) && m[r.value] >= m[2];
  }

  /** Untagged, no current bailiff, every answering bailiff unsafe: the
      last unsafe one is chosen. */
  lemma UnsafeEscapeValve(order: seq<HostId>)
    requires IsShuffleOf(order, Scores([Candidate(4, true, Some(false), Some(0)),
                                        Candidate(5, false, None, None),
                                        Candidate(6, true, Some(false), Some(2))], None, false))
    ensures Select([Candidate(4, true, Some(false), Some(0)),
                    Candidate(5, false, None, None),
                    Candidate(6, true, Some(false), Some(2))], None, false, order) == Some(6)
  {
    var cs := [Candidate(4, true, Some(false), Some(0)),
               Candidate(5, false, None, None),
               Candidate(6, true, Some(false), Some(2))];
    assert cs[..2][..1] == [cs[0]] && cs[..2][..0] == [] && cs[..|cs| - 1] == cs[..2];
    assert Scores([cs[0]], None, false) == map[];
    assert Scores(cs[..2], None, false) == map[];
    assert Scores(cs, None, false) == map[];
    assert Responded(cs) > 0;
  }

  /** Untagged, no current bailiff, one safe bailiff with 99 residents:
      nothing beats the `99` sentinel, so the result is null although a
      safe bailiff answered. */
  lemma SentinelHidesCrowdedHost()
    ensures Select([Candidate(4, true, Some(true), Some(99))], None, false, [4]) == None
  {
    var cs := [Candidate(4, true, Some(true), Some(99))];
    assert cs[..0] == [];
    assert Scores(cs, None, false) == map[4 := 99];
  }

  /** The hunt walks [self, B, A]; B accepts, so the tag passes and A is
      never asked. */
  lemma FirstAcceptanceEndsHunt(self: Uuid, a: Uuid, b: Uuid, reply: Uuid -> TagAnswer)
    requires self != a && self != b && a != b
    requires reply(b) == Accepted
    ensures HuntCalls(self, [self, b, a], reply) == HuntResult([b], true)
  {
    HuntStopsAtFirstDecisive(self, [self, b, a], reply, 1);
    assert [self, b, a][..2] == [self, b];
    assert Others(self, [self, b]) == [b] by {
      assert [self, b][1..] == [b];
      assert [b][1..] == [];
    }
  }
}
