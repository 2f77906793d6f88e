/** The second PHY test scenario: a sequencer that takes one step a call and asks the operator
    to confirm a loopback test for each combination of Auto-MDIX setting, operation mode and
    cable. */
module PhyScenario {

  /** The control register values of the operation modes Auto, 100F, 100H, 10F and 10H. */
  const CTRL: seq<nat> := [0x3100, 0x2100, 0x2000, 0x0100, 0x0000]

  // What the operator has typed.
  const YES: nat := 1
  const NO: nat := 2

  /** How often a register is read before the step gives up. */
  const PATIENCE: nat := 50

  /** A loopback test that was confirmed: how the PHY was set and which cable was asked for. */
  datatype Trial = Trial(mdixDisabled: nat, ctrl: nat, cable: nat)

  /** The variables of the scenario, but for the answer. */
  datatype Settings = Settings(scenMode: nat, seqNum: nat, opMode: nat, mdixMode: nat, cableSel: nat,
                               phyMdixDisabled: nat, phyCtrl: nat)

  datatype CallEnd = Quiet | ResetError | LinkError | Terminated | Finished

  /** The combinations in the order they come up. */
  function Index(mdix: nat, op: nat, cable: nat): nat { 8 * mdix + 2 * op + cable }

  predicate InRange(mdix: nat, op: nat, cable: nat) { mdix <= 1 && op <= 3 && cable <= 1 }

  /** The first `n` combinations are among the confirmed ones. */
  ghost predicate Covered(confirmed: set<Trial>, n: nat) {
    forall m: nat, o: nat, c: nat | InRange(m, o, c) && Index(m, o, c) < n ::
      Trial(m, CTRL[o], c) in confirmed
  }

  /** Every combination of two MDIX settings, four modes and two cables. */
  ghost predicate Complete(confirmed: set<Trial>) {
    forall m: nat, o: nat, c: nat | InRange(m, o, c) :: Trial(m, CTRL[o], c) in confirmed
  }

  lemma CoveredOneMore(confirmed: set<Trial>, mdix: nat, op: nat, cable: nat)
    requires InRange(mdix, op, cable) && Covered(confirmed, Index(mdix, op, cable))
    ensures Covered(confirmed + {Trial(mdix, CTRL[op], cable)}, Index(mdix, op, cable) + 1)
    ensures Covered(confirmed + {Trial(mdix, CTRL[op], cable)}, Index(mdix, op, cable))
  {
    var more := confirmed + {Trial(mdix, CTRL[op], cable)};
    forall m: nat, o: nat, c: nat | InRange(m, o, c) && Index(m, o, c) < Index(mdix, op, cable) + 1
      ensures Trial(m, CTRL[o], c) in more
    {
      if Index(m, o, c) == Index(mdix, op, cable) {
        assert m == mdix && o == op && c == cable;
      }
    }
  }

  lemma NoneCovered(confirmed: set<Trial>)
    ensures Covered(confirmed, Index(0, 0, 0))
  {
  }

  lemma CoveredAll(confirmed: set<Trial>)
    ensures Covered(confirmed, Index(1, 3, 1) + 1) ==> Complete(confirmed)
  {
  }

  /** The `k`-th combination with the register values it is tested under. */
  function Combination(k: nat): Trial
    requires k < 16
  {
    Trial(k / 8, [0x3100, 0x2100, 0x2000, 0x0100][k / 2 % 4], k % 2)
  }

  lemma CombinationsDiffer(i: nat, j: nat)
    requires i < j < 16
    ensures Combination(i) != Combination(j)
  {
    assert j == 8 * (j / 8) + 2 * (j / 2 % 4) + j % 2 && i == 8 * (i / 8) + 2 * (i / 2 % 4) + i % 2;
  }

  /** The first `n` combinations are `n` different trials. */
  lemma {:induction false} FirstTrials(n: nat) returns (trials: set<Trial>)
    requires n <= 16
    ensures |trials| == n && forall t :: t in trials <==> exists k: nat | k < n :: t == Combination(k)
  {
    trials := {};
    if n > 0 {
      trials := FirstTrials(n - 1);
      forall k: nat | k < n - 1
        ensures Combination(k) != Combination(n - 1)
      {
        CombinationsDiffer(k, n - 1);
      }
      trials := trials + {Combination(n - 1)};
    }
  }

  /** A complete test holds sixteen different trials: both MDIX settings and both cables with the
      control register values 0x3100, 0x2100, 0x2000 and 0x0100. */
  lemma CompleteIsSixteen(confirmed: set<Trial>)
    ensures Complete(confirmed) <==> forall k: nat | k < 16 :: Combination(k) in confirmed
    ensures Complete(confirmed) ==> |confirmed| >= 16
  {
    hide Combination;
    if Complete(confirmed) {
      forall k: nat | k < 16
        ensures Combination(k) in confirmed
      {
        CombinationIs(k);
        assert Trial(k / 8, CTRL[k / 2 % 4], k % 2) in confirmed;
      }
      var trials := FirstTrials(16);
      assert trials <= confirmed;
      Smaller(trials, confirmed);
    }
    if forall k: nat | k < 16 :: Combination(k) in confirmed {
      forall m: nat, o: nat, c: nat | InRange(m, o, c)
        ensures Trial(m, CTRL[o], c) in confirmed
      {
        IsCombination(m, o, c);
        assert Combination(Index(m, o, c)) in confirmed;
      }
    }
  }

  lemma CombinationIs(k: nat)
    requires k < 16
    ensures InRange(k / 8, k / 2 % 4, k % 2) && Combination(k) == Trial(k / 8, CTRL[k / 2 % 4], k % 2)
  {
  }

  lemma IsCombination(m: nat, o: nat, c: nat)
    requires InRange(m, o, c)
    ensures Index(m, o, c) < 16 && Combination(Index(m, o, c)) == Trial(m, CTRL[o], c)
  {
    assert (8 * m + 2 * o + c) / 8 == m && (8 * m + 2 * o + c) / 2 == 4 * m + o;
  }

  lemma {:induction false} Smaller(a: set<Trial>, b: set<Trial>)
    requires a <= b
    ensures |a| <= |b|
  {
    if a != {} {
      var x :| x in a;
      Smaller(a - {x}, b - {x});
    }
  }

  /** The calls still needed when the operator always says yes, every reset completes and
      every link comes up: 1 to start, 21 for each MDIX setting, 5 of them for each mode. */
  function CallsLeft(seqNum: nat, mdix: nat, op: nat, cable: nat): int {
    if seqNum == 0 then 43
    else if seqNum == 1 then 21 * (2 - mdix)
    else if seqNum == 2 then 21 * (1 - mdix) + 5 * (4 - op)
    else 21 * (1 - mdix) + 5 * (3 - op) + 2 * (1 - cable) + (if seqNum == 3 then 2 else 1)
  }

  lemma FirstCalls(mdix: nat, op: nat, cable: nat)
    ensures CallsLeft(1, 0, 0, cable) == CallsLeft(0, mdix, op, cable) - 1
    ensures CallsLeft(2, mdix, 0, cable) == CallsLeft(1, mdix, 0, cable) - 1
    ensures CallsLeft(0, mdix, op, cable) == 43 && (mdix <= 1 ==> CallsLeft(1, mdix, op, cable) > 1)
  {
  }

  /** The combination that follows, and the calls it saves. */
  lemma NextCombination(m: nat, o: nat, c: nat)
    requires InRange(m, o, c)
    ensures c == 0 ==> Index(m, o, 1) == Index(m, o, c) + 1 && CallsLeft(3, m, o, 1) == CallsLeft(4, m, o, c) - 1
    ensures c == 1 && o < 3 ==>
              Index(m, o + 1, 0) == Index(m, o, c) + 1 && CallsLeft(2, m, o + 1, 0) == CallsLeft(4, m, o, c) - 1
    ensures c == 1 && o == 3 && m == 0 ==>
              Index(1, 0, 0) == Index(m, o, c) + 1 && CallsLeft(1, 1, 0, 0) == CallsLeft(4, m, o, c) - 1
    ensures CallsLeft(4, m, o, c) == 1 <==> m == 1 && o == 3 && c == 1
  {
  }

  lemma CallsAreLeft(seqNum: nat, m: nat, o: nat, c: nat)
    requires seqNum <= 4 && (seqNum > 0 ==> m <= 1 && o <= 3) && (seqNum > 2 ==> c <= 1)
    ensures CallsLeft(seqNum, m, o, c) >= 1 && CallsLeft(0, m, o, c) == 43
  {
  }

  class Scenario {
    var scenMode: nat
    var seqNum: nat
    var opMode: nat
    var answer: nat
    var mdixMode: nat
    var cableSel: nat

    /** The two PHY settings the scenario writes. */
    var phyMdixDisabled: nat
    var phyCtrl: nat

    ghost var confirmed: set<Trial>
    /** The settings under which the link was last seen up. */
    ghost var linked: Trial

    constructor (scenMode: nat)
      ensures Valid() && seqNum == 0
    {
      this.scenMode := scenMode;
      seqNum, opMode, answer, mdixMode, cableSel := 0, 0, 0, 0, 0;
      phyMdixDisabled, phyCtrl := 0, 0;
      confirmed, linked := {}, Trial(0, 0, 0);
    }

    /** What every sequence of calls keeps: the combinations up to the current one have been
        confirmed since sequence 0, and the PHY is set as the current one asks for. */
    ghost predicate Valid()
      reads this
    {
      && seqNum <= 4
      && (seqNum > 0 ==> mdixMode <= 1 && opMode <= 3)
      && (seqNum == 1 ==> opMode == 0 && Covered(confirmed, Index(mdixMode, 0, 0)))
      && (seqNum > 1 ==> phyMdixDisabled == mdixMode)
      && (seqNum == 2 ==> Covered(confirmed, Index(mdixMode, opMode, 0)))
      && (seqNum > 2 ==>
            && phyCtrl == CTRL[opMode] && cableSel <= 1
            && Covered(confirmed, Index(mdixMode, opMode, cableSel)))
      && (seqNum == 4 ==> linked == Trial(mdixMode, CTRL[opMode], cableSel))
    }

    /** Everything the scenario keeps but the answer. */
    ghost function State(): (s: Settings)
      reads this
    {
      Settings(scenMode, seqNum, opMode, mdixMode, cableSel, phyMdixDisabled, phyCtrl)
    }

    /** The console takes an answer between two calls. */
    method Answer(typed: nat)
      requires Valid()
      modifies `answer
      ensures Valid() && answer == typed && State() == old(State())
    {
      answer := typed;
    }

    /** Waits for the reset bit to clear; it is read as 0 from reading `resetAfter` on. */
    method AwaitReset(resetAfter: nat) returns (done: bool)
      ensures done <==> resetAfter <= 50 == PATIENCE
    {
      var tempCnt := 0;
      var resetting := true;
      while resetting
        invariant tempCnt <= PATIENCE && (resetting <==> tempCnt == 0 || tempCnt < resetAfter)
        decreases PATIENCE - tempCnt
      {
        tempCnt := tempCnt + 1;
        resetting := tempCnt < resetAfter;
        if tempCnt > PATIENCE {
          return false;
        }
      }
      done := true;
    }

    /** Waits for the link; the first `linkAfter` checks find it down. */
    method AwaitLink(linkAfter: nat) returns (up: bool)
      ensures up <==> linkAfter <= 50 == PATIENCE
    {
      var tempCnt := 0;
      while tempCnt < linkAfter
        invariant tempCnt <= PATIENCE && tempCnt <= linkAfter
      {
        tempCnt := tempCnt + 1;
        if tempCnt > PATIENCE {
          return false;
        }
      }
      up := true;
    }

    /** Sequence 2: sets the operation mode, resets the PHY and asks for the direct cable. */
    method SetMode(resetAfter: nat) returns (e: CallEnd)
      requires Valid() && seqNum == 2
      modifies this
      ensures Valid() && confirmed == old(confirmed)
      ensures mdixMode == old(mdixMode) && opMode == old(opMode)
      ensures resetAfter <= PATIENCE ==>
                && e == Quiet && seqNum == 3 && cableSel == 0 && answer == 0
                && CallsLeft(seqNum, mdixMode, opMode, cableSel)
                   == old(CallsLeft(seqNum, mdixMode, opMode, cableSel)) - 1 > 0
      ensures resetAfter > PATIENCE ==>
                e == ResetError && seqNum == 2 && cableSel == old(cableSel) && answer == old(answer)
      ensures phyCtrl == CTRL[opMode] && phyMdixDisabled == old(phyMdixDisabled) && scenMode == old(scenMode)
      ensures linked == old(linked)
    {
      phyCtrl := CTRL[opMode];
      var done := AwaitReset(resetAfter);
      if !done {
        return ResetError;
      }
      answer, cableSel, seqNum := 0, 0, 3;
      e := Quiet;
    }

    /** Sequence 3: once the operator is ready, checks the link. */
    method CheckLink(linkAfter: nat) returns (e: CallEnd)
      requires Valid() && seqNum == 3
      modifies this
      ensures Valid() && confirmed == old(confirmed)
      ensures old(answer) == YES && linkAfter <= PATIENCE ==>
                && e == Quiet && answer == 0 && State() == old(State()).(seqNum := 4)
                && CallsLeft(seqNum, mdixMode, opMode, cableSel)
                   == old(CallsLeft(seqNum, mdixMode, opMode, cableSel)) - 1 > 0
      ensures old(answer) == YES && linkAfter > PATIENCE ==>
                e == LinkError && answer == YES && State() == old(State()).(seqNum := 2) && linked == old(linked)
      ensures old(answer) == NO ==>
                e == Terminated && answer == 0 && State() == old(State()).(scenMode := 0, seqNum := 0, mdixMode := 0)
      ensures old(answer) != YES && old(answer) != NO ==>
                e == Quiet && answer == old(answer) && State() == old(State())
      ensures e != Finished
    {
      e := Quiet;
      if answer == YES {
        var up := AwaitLink(linkAfter);
        if !up {
          seqNum := 2;
          return LinkError;
        }
        linked := Trial(phyMdixDisabled, phyCtrl, cableSel);
        answer, seqNum := 0, 4;
      } else if answer == NO {
        mdixMode, answer, scenMode, seqNum := 0, 0, 0, 0;
        e := Terminated;
      }
    }

    /** Sequence 4 goes on to the other cable, the next mode or the other MDIX setting. */
    method Advance() returns (e: CallEnd)
      requires Valid() && seqNum == 4
      requires Covered(confirmed, Index(mdixMode, opMode, cableSel) + 1)
      modifies this
      ensures Valid() && confirmed == old(confirmed)
      ensures e == Finished <==> old(mdixMode) == 1 && old(opMode) == 3 && old(cableSel) == 1
      ensures (e == Finished || e == Quiet) && answer == 0
      ensures phyMdixDisabled == old(phyMdixDisabled) && phyCtrl == old(phyCtrl)
      ensures e == Finished ==> scenMode == seqNum == opMode == mdixMode == cableSel == 0
      ensures e != Finished ==>
                && Index(mdixMode, opMode, cableSel) == old(Index(mdixMode, opMode, cableSel)) + 1
                && seqNum == (if old(cableSel) == 0 then 3 else if old(opMode) < 3 then 2 else 1)
                && scenMode == old(scenMode)
      ensures e == Finished ==> Covered(confirmed, Index(1, 3, 1) + 1)
      ensures CallsLeft(4, old(mdixMode), old(opMode), old(cableSel)) == 1 <==> e == Finished
      ensures e != Finished ==>
                CallsLeft(seqNum, mdixMode, opMode, cableSel)
                == CallsLeft(4, old(mdixMode), old(opMode), old(cableSel)) - 1
    {
      hide Covered, CallsLeft, Index;
      NextCombination(mdixMode, opMode, cableSel);
      e := Quiet;
      if cableSel == 0 {
        cableSel, seqNum := 1, 3;
      } else {
        cableSel := 0;
        if opMode < 3 {
          opMode, seqNum := opMode + 1, 2;
        } else if mdixMode == 0 {
          opMode, seqNum, mdixMode := 0, 1, 1;
        } else {
          opMode, seqNum, mdixMode, scenMode := 0, 0, 0, 0;
          e := Finished;
        }
      }
      answer := 0;
    }

    /** Sequence 4: the loopback test runs until the operator confirms it. */
    method Loopback() returns (e: CallEnd)
      requires Valid() && seqNum == 4
      modifies this
      ensures Valid()
      ensures confirmed == if old(answer) == YES then old(confirmed) + {old(linked)} else old(confirmed)
      ensures e == Finished ==> Complete(confirmed)
      ensures phyMdixDisabled == old(phyMdixDisabled) && phyCtrl == old(phyCtrl)
      ensures old(answer) == YES && e != Finished ==>
                e == Quiet && Index(mdixMode, opMode, cableSel) == old(Index(mdixMode, opMode, cableSel)) + 1
      ensures old(answer) == NO ==>
                e == Terminated && answer == 0 && State() == old(State()).(scenMode := 0, seqNum := 0, mdixMode := 0)
      ensures old(answer) != YES && old(answer) != NO ==>
                e == Quiet && answer == old(answer) && State() == old(State())
      ensures e == Finished <==>
                old(answer) == YES && old(mdixMode) == 1 && old(opMode) == 3 && old(cableSel) == 1
      ensures old(answer) == YES ==>
                && (e == Finished <==> old(CallsLeft(seqNum, mdixMode, opMode, cableSel)) == 1)
                && (e != Finished ==>
                      CallsLeft(seqNum, mdixMode, opMode, cableSel)
                      == old(CallsLeft(seqNum, mdixMode, opMode, cableSel)) - 1)
    {
      CoveredAll(confirmed + {linked});
      hide Covered, Complete, CallsLeft, Index;
      e := Quiet;
      if answer == YES {
        CoveredOneMore(confirmed, mdixMode, opMode, cableSel);
        confirmed := confirmed + {linked};
        e := Advance();
      } else if answer == NO {
        mdixMode, answer, scenMode, seqNum := 0, 0, 0, 0;
        e := Terminated;
      }
    }

    /** One call of the scenario.  Whatever the operator, the resets and the links did since
        sequence 0, it reports that the test is finished only when every combination has been
        confirmed with the link up and the PHY set accordingly. */
    method Call(resetAfter: nat, linkAfter: nat) returns (e: CallEnd)
      requires Valid()
      modifies this
      ensures Valid()
      ensures e == Finished ==> Complete(confirmed)
      ensures old(seqNum) == 0 ==>
                confirmed == {} && e == Quiet && State() == old(State()).(seqNum := 1, opMode := 0, mdixMode := 0)
      ensures old(seqNum) == 1 ==> e == Quiet && State() == old(State()).(seqNum := 2, phyMdixDisabled := mdixMode)
      ensures old(seqNum) <= 1 ==> answer == old(answer)
      ensures old(seqNum) >= 3 && old(answer) == 2 ==> e == Terminated
      ensures old(seqNum) == 4 && old(answer) == 1 ==> confirmed == old(confirmed) + {old(linked)}
      ensures old(seqNum) == 3 && linkAfter <= PATIENCE && old(answer) == YES ==>
                linked == Trial(phyMdixDisabled, phyCtrl, cableSel)
      ensures old(seqNum) != 0 ==>
                || confirmed == old(confirmed)
                || (old(seqNum) == 4 && old(answer) == YES && confirmed == old(confirmed) + {old(linked)})
      ensures old(answer) == YES && resetAfter <= PATIENCE && linkAfter <= PATIENCE ==>
                && (e == Finished <==> old(CallsLeft(seqNum, mdixMode, opMode, cableSel)) == 1)
                && (e != Finished ==>
                      CallsLeft(seqNum, mdixMode, opMode, cableSel)
                      == old(CallsLeft(seqNum, mdixMode, opMode, cableSel)) - 1)
    {
      hide Covered, Complete, CallsLeft, Index;
      NoneCovered({});
      if seqNum <= 1 {
        FirstCalls(mdixMode, opMode, cableSel);
      }
      e := Quiet;
      match seqNum {
        case 0 =>
          mdixMode, opMode, seqNum := 0, 0, 1;
          confirmed := {};
        case 1 =>
          if phyMdixDisabled != mdixMode {
            phyMdixDisabled := mdixMode;
          }
          seqNum := 2;
        case 2 =>
          e := SetMode(resetAfter);
        case 3 =>
          e := CheckLink(linkAfter);
        case 4 =>
          e := Loopback();
        case _ =>
      }
    }

    /** With every answer yes, every reset complete and every link up, the test finishes after
        exactly the calls counted above: 43 from the start. */
    method AllYes(resetAfter: nat, linkAfter: nat) returns (calls: nat)
      requires Valid() && resetAfter <= PATIENCE && linkAfter <= PATIENCE
      modifies this
      ensures Valid() && Complete(confirmed)
      ensures calls == old(CallsLeft(seqNum, mdixMode, opMode, cableSel))
      ensures old(seqNum) == 0 ==> calls == 43
    {
      hide Covered, Complete, CallsLeft, Index, State;
      CallsAreLeft(seqNum, mdixMode, opMode, cableSel);
      calls := 0;
      var e := Quiet;
      while e != Finished
        invariant Valid()
        invariant e == Finished ==> Complete(confirmed)
        invariant CallsLeft(seqNum, mdixMode, opMode, cableSel) >= 1
        invariant calls + (if e == Finished then 0 else CallsLeft(seqNum, mdixMode, opMode, cableSel))
                  == old(CallsLeft(seqNum, mdixMode, opMode, cableSel))
        decreases if e == Finished then 0 else CallsLeft(seqNum, mdixMode, opMode, cableSel)
      {
        Answer(YES);
        e := Call(resetAfter, linkAfter);
        calls := calls + 1;
        CallsAreLeft(seqNum, mdixMode, opMode, cableSel);
      }
    }
  }
}
