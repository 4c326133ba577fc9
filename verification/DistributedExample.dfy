/** A run that begins where the program begins and meets the hypotheses of the theorems on the channels. */
module DistributedExample {

  import opened Wrappers
  import opened Distributed
  import opened DistributedClient
  import opened DistributedSystem
  import opened DistributedTree

  lemma RunCons(s: Sys, step: Step, rest: seq<Step>, s': Sys)
    requires AllKnown(s) && Enabled(s, step) && IsRun(Do(s, step), rest, s')
    ensures IsRun(s, [step] + rest, s')
  {
    assert ([step] + rest)[1..] == rest;
  }

  function NewClient(me: Name): Client
  {
    Client(me, false, None, [], map[], {}, [], true, 5, map[])
  }

  /** The two clients before they are connected. */
  function Apart(a: Client, b: Client): Sys
  {
    Sys(map["a" := a, "b" := b], map[], map[])
  }

  /** b has connected to a, and messages are on their way to b. */
  function Joined(a: Client, b: Client, towardsB: seq<Msg>): Sys
  {
    Sys(map["a" := a, "b" := b], map[0 := Link("b", "a")], map[Requested(0) := towardsB, Accepted(0) := []])
  }

  lemma LoginStep()
    ensures var s := Apart(NewClient("a"), NewClient("b"));
            AllKnown(s) && Enabled(s, SessionInitialized("a")) &&
            Do(s, SessionInitialized("a")) == Apart(NewClient("a").(session := true), NewClient("b"))
  {
  }

  lemma ConnectStep(a: Client, b: Client)
    requires a.me == "a" && b.me == "b" && ParentKnown(a) && ParentKnown(b)
    ensures var s := Apart(a, b);
            AllKnown(s) && Enabled(s, Connect(0, "b", "a")) &&
            Do(s, Connect(0, "b", "a")) == Joined(Opened(a, Accepted(0)), Opened(b, Requested(0)), [])
  {
  }

  /** a adds b as its child and sends level 0. */
  lemma AcceptHandler(a: Client)
    requires a == Opened(NewClient("a").(session := true), Accepted(0))
    ensures var o := OnInitialized(a, Accepted(0), "b");
            && o.client.me == "a" && o.client.children == [Accepted(0)] && o.client.open == {Accepted(0)}
            && MsgsTo(o.sends, Accepted(0)) == [Level(0)] && MsgsTo(o.sends, Requested(0)) == []
  {
    MsgsToOne(Send(Accepted(0), Level(0)), Accepted(0));
    MsgsToOne(Send(Accepted(0), Level(0)), Requested(0));
  }

  lemma PutOnWire(a: Client, b: Client, o: Out)
    requires a.me == "a" && b.me == "b" && o.client.me == "a"
    requires MsgsTo(o.sends, Accepted(0)) == [Level(0)] && MsgsTo(o.sends, Requested(0)) == []
    ensures Put(Joined(a, b, []), "a", o) == Joined(o.client, b, [Level(0)])
  {
    var before := Joined(a, b, []).wire;
    var after := map e | e in before :: before[e] + MsgsTo(o.sends, Twin(e));
    assert before.Keys == {Requested(0), Accepted(0)};
    Appended(before[Requested(0)], MsgsTo(o.sends, Accepted(0)));
    Appended(before[Accepted(0)], MsgsTo(o.sends, Requested(0)));
    assert after[Requested(0)] == [Level(0)] && after[Accepted(0)] == [];
    assert after == map[Requested(0) := [Level(0)], Accepted(0) := []];
  }

  lemma Appended(none: seq<Msg>, msgs: seq<Msg>)
    requires none == []
    ensures none + msgs == msgs
  {
  }

  lemma AcceptStep(a: Client, b: Client) returns (a': Client)
    requires a == Opened(NewClient("a").(session := true), Accepted(0)) && b.me == "b" && ParentKnown(b)
    ensures a'.me == "a" && a'.children == [Accepted(0)] && a'.open == {Accepted(0)}
    ensures var s := Joined(a, b, []);
            AllKnown(s) && Enabled(s, Initialize(Accepted(0))) &&
            Do(s, Initialize(Accepted(0))) == Joined(a', b, [Level(0)])
  {
    var o := OnInitialized(a, Accepted(0), "b");
    a' := o.client;
    AcceptHandler(a);
    PutOnWire(a, b, o);
  }

  /** Three steps, cut behind the first. */
  lemma ThreeSteps(s0: Sys, e0: Step, s1: Sys, e1: Step, s2: Sys, e2: Step, s3: Sys)
    requires AllKnown(s0) && Enabled(s0, e0) && Do(s0, e0) == s1
    requires AllKnown(s1) && Enabled(s1, e1) && Do(s1, e1) == s2
    requires AllKnown(s2) && Enabled(s2, e2) && Do(s2, e2) == s3
    ensures IsRun(s0, [e0, e1, e2][..1], s1) && IsRun(s1, [e0, e1, e2][1..], s3)
  {
    RunCons(s0, e0, [], s1);
    RunCons(s2, e2, [], s3);
    RunCons(s1, e1, [e2] + [], s3);
    assert [e0, e1, e2][..1] == [e0] + [] && [e0, e1, e2][1..] == [e1] + ([e2] + []);
  }

  lemma ApartIsInit()
    ensures Init(Apart(NewClient("a"), NewClient("b")))
  {
  }

  lemma JoinedIsOpen(a: Client, b: Client, msgs: seq<Msg>)
    requires Accepted(0) in a.open && Requested(0) in b.open
    ensures IsOpen(Joined(a, b, msgs), Requested(0)) && IsOpen(Joined(a, b, msgs), Accepted(0))
  {
  }

  lemma RunOfThree(b: Client) returns (steps: seq<Step>, s1: Sys, a': Client)
    requires b == NewClient("b")
    ensures |steps| == 3 && IsRun(Apart(NewClient("a"), b), steps[..1], s1)
    ensures IsRun(s1, steps[1..], Joined(a', Opened(b, Requested(0)), [Level(0)]))
    ensures s1 == Apart(NewClient("a").(session := true), b) && SessionDestroyed("a") !in steps
    ensures a'.me == "a" && a'.children == [Accepted(0)] && a'.open == {Accepted(0)}
  {
    var a := NewClient("a").(session := true);
    var a2, b2 := Opened(a, Accepted(0)), Opened(b, Requested(0));
    s1 := Apart(a, b);
    LoginStep();
    ConnectStep(a, b);
    a' := AcceptStep(a2, b2);
    var e0, e1, e2 := SessionInitialized("a"), Connect(0, "b", "a"), Initialize(Accepted(0));
    steps := [e0, e1, e2];
    ThreeSteps(Apart(NewClient("a"), b), e0, s1, e1, Joined(a2, b2, []), e2, Joined(a', b2, [Level(0)]));
  }

  /**
   From the start, where nobody holds a session: a logs in, b connects to it and becomes its child, and the
   message that tells b so is on its way.
   */
  lemma LoginThenChild() returns (s0: Sys, steps: seq<Step>, s1: Sys, s: Sys)
    ensures Init(s0) && KeepsSession(s0, steps, s, "a", 1, s1)
    ensures IsOpen(s, Requested(0)) && IsOpen(s, Accepted(0)) && s.links[0] == Link("b", "a")
    ensures s.clients["a"].children == [Accepted(0)]
    ensures Requested(0) in s.wire && s.wire[Requested(0)] == [Level(0)]
  {
    var b := NewClient("b");
    var a';
    steps, s1, a' := RunOfThree(b);
    s0 := Apart(NewClient("a"), b);
    s := Joined(a', Opened(b, Requested(0)), [Level(0)]);
    ApartIsInit();
    JoinedIsOpen(a', Opened(b, Requested(0)), [Level(0)]);
  }
}
