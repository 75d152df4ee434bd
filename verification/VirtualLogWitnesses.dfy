/**
 Reachable states in which a stale chain, or a cache that changed at an await, leads the VirtualLog's
 clients astray (virtual_log/core.py). Each one meets its exact condition in VirtualLogTheorems or
 VirtualLogClient from the failing side.
 */
module VirtualLogWitnesses {
  import opened Wrappers
  import opened LogChains
  import opened Register
  import opened VirtualLogProtocol
  import opened VirtualLogTheorems
  import opened VirtualLogNetwork
  import opened VirtualLogClient

  const CONFIGURATION := LogletConfiguration("native", 1, "")
  const ZOMBIE := LogCommand("zombie", [])
  const COMMAND := LogCommand("command", [])
  const FIRST := LogSegment("A", 0, None, CONFIGURATION)

  function ClosedAt(stop: nat): LogChain {
    LogChain([FIRST.(virtualStop := Some(stop)), LogSegment("B", stop, None, CONFIGURATION)])
  }

  /** Two versions: segment A, then A closed at `stop` and B open there. */
  function TwoVersions(stop: nat, a: Loglet, b: Loglet, acks: set<Ack>): State {
    State(map["A" := a, "B" := b], [LogChain([FIRST]), ClosedAt(stop)],
          [Placed("A", 0), Placed("B", stop)], [Window(0, 1), Window(0, 2)], acks)
  }

  lemma Step(s: State, action: Action)
    requires Reachable(s) && |s.windows| == |s.chains| && Enabled(s, action)
    ensures Reachable(After(s, action))
  {
    hide After, Enabled;
    var run :| Run(run) && run[|run| - 1] == s;
    var longer := run + [After(s, action)];
    assert Next(s, After(s, action));
    assert Run(longer);
  }

  lemma StartReachable()
    ensures Reachable(State(map[], [], [], [], {}))
  {
    var s := State(map[], [], [], [], {});
    assert Run([s]) && [s][|[s]| - 1] == s;
  }

  /** A seals at `stop`, B opens there, and nothing is acknowledged yet. */
  lemma TwoVersionsReachable(stop: nat, a: Loglet, b: Loglet)
    requires Contract(a) && Contract(b) && stop in a.sealedTails
    ensures Reachable(TwoVersions(stop, a, b, {}))
  {
    hide Reachable;
    StartReachable();
    var s0 := State(map[], [], [], [], {});
    Step(s0, BootstrapAction(FIRST));
    var s1 := After(s0, BootstrapAction(FIRST));
    Step(s1, LogletAction("A", a));
    var s2 := After(s1, LogletAction("A", a));
    assert s2.chains == [LogChain([FIRST])];
    var extend := ExtendAction(NewLogletConfiguration("B", CONFIGURATION), stop);
    Step(s2, extend);
    var s3 := After(s2, extend);
    assert s3.chains[1].segments == ClosedAt(stop).segments;
    Step(s3, LogletAction("B", b));
    var s4 := After(s3, LogletAction("B", b));
    assert s4 == TwoVersions(stop, a, b, {});
  }

  // ---- A sealed tail of an old segment ---------------------------------------------------------

  /** A is sealed empty but for a zombie at local 0, and B has acknowledged `COMMAND` at virtual position 0. */
  function StaleState(): State {
    TwoVersions(0, Loglet(map[0 := ZOMBIE], {}, {0}, 0, 0, 0), Loglet(map[0 := COMMAND], {0}, {}, 1, 0, 0),
                {Ack(0, COMMAND, "B", 0, 2)})
  }

  lemma StaleStateReachable()
    ensures Reachable(StaleState()) && Inv(StaleState())
  {
    hide Reachable, Inv;
    var a, b := Loglet(map[0 := ZOMBIE], {}, {0}, 0, 0, 0), Loglet(map[0 := COMMAND], {0}, {}, 1, 0, 0);
    TwoVersionsReachable(0, a, b);
    var s := TwoVersions(0, a, b, {});
    Step(s, AcknowledgeAction(2, 0));
    assert After(s, AcknowledgeAction(2, 0)) == StaleState();
    ReachableInv(StaleState());
  }

  const STALE_SCRIPT: Script := map["A" := LogletTail(0, true)]
  const STALE_CHAIN := VersionedLogChain(1, Some(LogChain([FIRST])))

  lemma StaleScript()
    ensures Tidy(StaleState(), STALE_SCRIPT) && Installed(StaleState(), STALE_CHAIN)
    ensures forall r :: TailAsScripted(StaleState(), STALE_CHAIN, STALE_SCRIPT, 1, r) ==> r == Ok(LogletTail(0, true))
    ensures !AllAcksBelow(StaleState().acks, 0) && !NothingLater(StaleState(), 1)
  {
    var s := StaleState();
    assert s.placed[0].segmentId == "A" && s.placed[1].segmentId == "B";
    assert MayAnswer(LogletOf(s, "A"), ScriptOf(STALE_SCRIPT, "A"));
    assert Ack(0, COMMAND, "B", 0, 2) in s.acks;
  }

  /** The last attempt of a check_tail through version 1 returns 0, and the append at position 0 is missed. */
  method StaleSealedTailFallsShort() returns (r: Result<LogletTail>)
    ensures r == Ok(LogletTail(0, true)) && Reachable(StaleState())
    ensures !AllAcksBelow(StaleState().acks, 0) && !NothingLater(StaleState(), 1)
  {
    hide Reachable, Inv, StaleState, Tidy, TailAsScripted, AllAcksBelow, NothingLater, MayAnswer, STALE_SCRIPT,
      STALE_CHAIN, Installed;
    StaleStateReachable();
    StaleScript();
    var world := new World(StaleState(), true, STALE_SCRIPT);
    var log := new VirtualLog(world, true, false, 1);
    log.cached := Some(STALE_CHAIN);
    ghost var through, trail;
    r, through, trail := log.CheckTail();
  }

  // ---- A read through an old chain -------------------------------------------------------------

  /** Version 1 still leads position 0 to A, where the zombie answers instead of the acknowledged command. */
  lemma StaleReadFindsZombie() returns (e: VirtualLogEntry, a: Ack)
    ensures Reachable(StaleState()) && a in StaleState().acks && e.position == a.position
    ensures EntryFits(StaleState(), StaleState().chains[0], e) && HoldsAcked(StaleState(), 1, e)
    ensures forall b :: b in StaleState().acks ==> b.command != e.command
    ensures !SeesAll(StaleState(), 1, e.position)
  {
    hide Reachable, Inv;
    StaleStateReachable();
    e := VirtualLogEntry(0, ZOMBIE, "A", 0);
    a := Ack(0, COMMAND, "B", 0, 2);
    assert EntryIn(StaleState().chains[0].segments[0], e);
  }

  // ---- A trim after the cache changed ----------------------------------------------------------

  /** The entry a Loglet gives to its `q`-th append. */
  function Entry(name: string, q: nat): LogCommand {
    LogCommand(name + Digits(q), [])
  }

  function Digits(q: nat): string {
    if q == 0 then "" else Digits(q - 1) + "i"
  }

  /** A Loglet that has committed `count` appends and is open. */
  function Committed(name: string, count: nat): Loglet {
    var issued := map q: nat | q < count :: Entry(name, q);
    Loglet(issued, issued.Keys, {}, count, 0, 0)
  }

  /** A closed at 1 with its one append, B open with five. */
  function FallenBackState(): State {
    TwoVersions(1, Committed("a", 1).(sealedTails := {1}), Committed("b", 5), {})
  }

  /**
   The tail 6 is checked through version 2; the cache then falls back to version 1, and the trim asks A
   for six positions of which it has established one.
   */
  lemma FallenBackTrimPasses() returns (q: TrimRequest)
    ensures Reachable(FallenBackState()) && UseFits(FallenBackState(), Trim(2, 1), 6)
    ensures Planned(FallenBackState(), 1, 6, q) && !RequestEstablished(FallenBackState(), q)
    ensures !Steady(FallenBackState(), Trim(2, 1), 6)
  {
    hide Reachable, Entry;
    TwoVersionsReachable(1, Committed("a", 1).(sealedTails := {1}), Committed("b", 5));
    var s := FallenBackState();
    assert TailOf(s, 2, 6);
    q := TrimRequest("A", 6);
    assert RequestFor(s.chains[0].segments[0], 6) == q;
  }

  /**
   A committed three appends and holds a fourth that some sealed server accepted: one sealed check_tail
   returned 3 and closed it there, a later one adopted the fourth and returned 4. B is untouched.
   */
  function RunAheadState(): State {
    TwoVersions(3, Committed("a", 3).(issued := Committed("a", 4).issued, sealedTails := {3, 4}, established := 4),
                UNTOUCHED, {})
  }

  /**
   Moving forward is no cure: the sealed tail 4 is checked through version 1, the cache moves on to
   version 2, and the trim asks B for a position of which it has established none.
   */
  lemma RunAheadTrimPasses() returns (q: TrimRequest)
    ensures Reachable(RunAheadState()) && UseFits(RunAheadState(), Trim(1, 2), 4)
    ensures SealedThrough(RunAheadState(), 1, 4)
    ensures Planned(RunAheadState(), 2, 4, q) && !RequestEstablished(RunAheadState(), q)
    ensures !Steady(RunAheadState(), Trim(1, 2), 4)
  {
    hide Reachable, Entry;
    var l := Committed("a", 3).(issued := Committed("a", 4).issued, sealedTails := {3, 4}, established := 4);
    TwoVersionsReachable(3, l, UNTOUCHED);
    var s := RunAheadState();
    assert TailOf(s, 1, 4);
    q := TrimRequest("B", 1);
    assert RequestFor(s.chains[1].segments[1], 4) == q;
  }
}
