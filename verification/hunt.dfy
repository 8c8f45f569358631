/** The hunt a tagged agent performs at the start of a cycle
    (`Dexter.topLevel`, the block guarded by `tagged && myBailiff != null`):
    walk the shuffled residents of the current bailiff, skip itself, and ask
    the bailiff to tag each one until a tag is accepted. A remote fault ends
    the whole hunt, because the handler sits outside the loop. */
module Hunting {
  import opened Common

  /** The answer of the bailiff's `tag(uuid)` for one resident. */
  datatype TagAnswer = Accepted | Declined | TagFault

  /** The residents the hunt asked, in order, and whether a tag was accepted. */
  datatype HuntResult = HuntResult(asked: seq<Uuid>, passed: bool)

  /** The residents other than the agent itself, in order. */
  function Others(self: Uuid, s: seq<Uuid>): (r: seq<Uuid>)
    ensures |r| <= |s|
    ensures forall x :: x in r <==> x in s && x != self
  {
    if s == [] then []
    else (if s[0] == self then [] else [s[0]]) + Others(self, s[1..])
  }

  /** Filtering out the agent distributes over appending one resident. */
  lemma {:induction false} OthersSnoc(self: Uuid, s: seq<Uuid>, x: Uuid)
    ensures Others(self, s + [x]) == Others(self, s) + (if x == self then [] else [x])
  {
    if s == [] {
      assert [x][1..] == [];
    } else {
      assert (s + [x])[1..] == s[1..] + [x];
      OthersSnoc(self, s[1..], x);
    }
  }

  /** The for-loop over the shuffled residents with `reply` as the
      bailiff's answer to each `tag` call. */
  function HuntCalls(self: Uuid, targets: seq<Uuid>, reply: Uuid -> TagAnswer): (r: HuntResult)
    ensures self !in r.asked
    ensures forall x :: x in r.asked ==> x in targets
    ensures |r.asked| <= |targets|
  {
    if targets == [] then HuntResult([], false)
    else if targets[0] == self then HuntCalls(self, targets[1..], reply)
    else match reply(targets[0])
      case Accepted => HuntResult([targets[0]], true)
      case TagFault => HuntResult([targets[0]], false)
      case Declined =>
        var rest := HuntCalls(self, targets[1..], reply);
        HuntResult([targets[0]] + rest.asked, rest.passed)
  }

  /** Every resident before index `i`, other than the agent, declined. */
  ghost predicate DeclinedBefore(self: Uuid, targets: seq<Uuid>, reply: Uuid -> TagAnswer, i: nat)
    requires i <= |targets|
  {
    forall j :: 0 <= j < i && targets[j] != self ==> reply(targets[j]) == Declined
  }

  /** The first resident (other than the agent) that does not decline ends
      the hunt: everyone up to it was asked, nobody after it, and the tag
      has passed exactly when it accepted. */
  lemma {:induction false} HuntStopsAtFirstDecisive(self: Uuid, targets: seq<Uuid>, reply: Uuid -> TagAnswer, i: nat)
    requires i < |targets| && targets[i] != self && reply(targets[i]) != Declined
    requires DeclinedBefore(self, targets, reply, i)
    ensures HuntCalls(self, targets, reply) ==
            HuntResult(Others(self, targets[..i + 1]), reply(targets[i]) == Accepted)
  {
    if i == 0 {
      assert targets[..1] == [targets[0]];
      assert Others(self, targets[..1]) == [targets[0]] + Others(self, []);
    } else {
      var rest := targets[1..];
      assert rest[..i] == targets[1..i + 1];
      forall j | 0 <= j < i - 1 && rest[j] != self
        ensures reply(rest[j]) == Declined
      {
        assert rest[j] == targets[j + 1];
      }
      HuntStopsAtFirstDecisive(self, rest, reply, i - 1);
      assert targets[..i + 1][1..] == rest[..i];
    }
  }

  /** When every other resident declines, all of them are asked and the
      tag stays with the agent. */
  lemma {:induction false} HuntAllDeclined(self: Uuid, targets: seq<Uuid>, reply: Uuid -> TagAnswer)
    requires DeclinedBefore(self, targets, reply, |targets|)
    ensures HuntCalls(self, targets, reply) == HuntResult(Others(self, targets), false)
  {
    if targets != [] {
      var rest := targets[1..];
      forall j | 0 <= j < |rest| && rest[j] != self
        ensures reply(rest[j]) == Declined
      {
        assert rest[j] == targets[j + 1];
      }
      HuntAllDeclined(self, rest, reply);
    }
  }

  /** The tag passes exactly when, in the shuffled order, the first other
      resident that does not decline accepts. */
  lemma {:induction false} HuntPassesIff(self: Uuid, targets: seq<Uuid>, reply: Uuid -> TagAnswer)
    ensures HuntCalls(self, targets, reply).passed <==>
            exists i :: 0 <= i < |targets| && targets[i] != self && reply(targets[i]) == Accepted
                        && DeclinedBefore(self, targets, reply, i)
  {
    if exists i :: 0 <= i < |targets| && targets[i] != self && reply(targets[i]) != Declined {
      var i := FirstDecisive(self, targets, reply);
      HuntStopsAtFirstDecisive(self, targets, reply, i);
      forall k | 0 <= k < |targets| && targets[k] != self && reply(targets[k]) == Accepted
                 && DeclinedBefore(self, targets, reply, k)
        ensures k == i
      {
      }
    } else {
      HuntAllDeclined(self, targets, reply);
    }
  }

  /** The index of the first other resident that does not decline. */
  lemma {:induction false} FirstDecisive(self: Uuid, targets: seq<Uuid>, reply: Uuid -> TagAnswer) returns (i: nat)
    requires exists k :: 0 <= k < |targets| && targets[k] != self && reply(targets[k]) != Declined
    ensures i < |targets| && targets[i] != self && reply(targets[i]) != Declined
    ensures DeclinedBefore(self, targets, reply, i)
  {
    var k :| 0 <= k < |targets| && targets[k] != self && reply(targets[k]) != Declined;
    i := 0;
    while i < k && !(targets[i] != self && reply(targets[i]) != Declined)
      invariant i <= k
      invariant DeclinedBefore(self, targets, reply, i)
    {
      i := i + 1;
    }
  }
}
