/**
 The worked values the survivor program's header reports.
 */
module WorkedValues {
  import opened Rounds
  import opened BruteForce
  import opened Intelligent

  /** With 100 chairs the survivor sits in chair #72. */
  lemma HundredChairs()
    ensures CalculateSurvivor(Chairs(100), true) == 72
    ensures FastSurvivor(100) == 72
  {
    assert NextStep(Step(true, 2)) == Step(true, 1);
    assert SurvivorIndex(Step(true, 2)) == 1;
    assert NextStep(Step(false, 3)) == Step(true, 2);
    assert SurvivorIndex(Step(false, 3)) == 2;
    assert NextStep(Step(false, 6)) == Step(false, 3);
    assert SurvivorIndex(Step(false, 6)) == 4;
    assert NextStep(Step(false, 12)) == Step(false, 6);
    assert SurvivorIndex(Step(false, 12)) == 8;
    assert NextStep(Step(true, 25)) == Step(false, 12);
    assert SurvivorIndex(Step(true, 25)) == 17;
    assert NextStep(Step(true, 50)) == Step(true, 25);
    assert SurvivorIndex(Step(true, 50)) == 35;
    assert NextStep(Step(true, 100)) == Step(true, 50);
    assert SurvivorIndex(Step(true, 100)) == 71;
    SurvivorAtIndex(Chairs(100), true);
  }

  /** The survivor's 0-based index among 1,000,000 chairs, built up four
      rounds at a time from the last round. */
  lemma MillionChairsRounds1()
    ensures SurvivorIndex(Step(false, 15)) == 14
  {
    assert NextStep(Step(true, 2)) == Step(true, 1);
    assert SurvivorIndex(Step(true, 2)) == 1;
    assert NextStep(Step(true, 4)) == Step(true, 2);
    assert SurvivorIndex(Step(true, 4)) == 3;
    assert NextStep(Step(true, 8)) == Step(true, 4);
    assert SurvivorIndex(Step(true, 8)) == 7;
    assert NextStep(Step(false, 15)) == Step(true, 8);
    assert SurvivorIndex(Step(false, 15)) == 14;
  }

  lemma MillionChairsRounds2()
    ensures SurvivorIndex(Step(false, 244)) == 232
  {
    MillionChairsRounds1();
    assert NextStep(Step(true, 31)) == Step(false, 15);
    assert SurvivorIndex(Step(true, 31)) == 29;
    assert NextStep(Step(false, 61)) == Step(true, 31);
    assert SurvivorIndex(Step(false, 61)) == 58;
    assert NextStep(Step(false, 122)) == Step(false, 61);
    assert SurvivorIndex(Step(false, 122)) == 116;
    assert NextStep(Step(false, 244)) == Step(false, 122);
    assert SurvivorIndex(Step(false, 244)) == 232;
  }

  lemma MillionChairsRounds3()
    ensures SurvivorIndex(Step(false, 3_906)) == 3_716
  {
    MillionChairsRounds2();
    assert NextStep(Step(false, 488)) == Step(false, 244);
    assert SurvivorIndex(Step(false, 488)) == 464;
    assert NextStep(Step(true, 977)) == Step(false, 488);
    assert SurvivorIndex(Step(true, 977)) == 929;
    assert NextStep(Step(false, 1_953)) == Step(true, 977);
    assert SurvivorIndex(Step(false, 1_953)) == 1_858;
    assert NextStep(Step(false, 3_906)) == Step(false, 1_953);
    assert SurvivorIndex(Step(false, 3_906)) == 3_716;
  }

  lemma MillionChairsRounds4()
    ensures SurvivorIndex(Step(true, 62_500)) == 59_463
  {
    MillionChairsRounds3();
    assert NextStep(Step(false, 7_812)) == Step(false, 3_906);
    assert SurvivorIndex(Step(false, 7_812)) == 7_432;
    assert NextStep(Step(true, 15_625)) == Step(false, 7_812);
    assert SurvivorIndex(Step(true, 15_625)) == 14_865;
    assert NextStep(Step(true, 31_250)) == Step(true, 15_625);
    assert SurvivorIndex(Step(true, 31_250)) == 29_731;
    assert NextStep(Step(true, 62_500)) == Step(true, 31_250);
    assert SurvivorIndex(Step(true, 62_500)) == 59_463;
  }

  lemma MillionChairsRounds5()
    ensures SurvivorIndex(Step(true, 1_000_000)) == 951_423
  {
    MillionChairsRounds4();
    assert NextStep(Step(true, 125_000)) == Step(true, 62_500);
    assert SurvivorIndex(Step(true, 125_000)) == 118_927;
    assert NextStep(Step(true, 250_000)) == Step(true, 125_000);
    assert SurvivorIndex(Step(true, 250_000)) == 237_855;
    assert NextStep(Step(true, 500_000)) == Step(true, 250_000);
    assert SurvivorIndex(Step(true, 500_000)) == 475_711;
    assert NextStep(Step(true, 1_000_000)) == Step(true, 500_000);
    assert SurvivorIndex(Step(true, 1_000_000)) == 951_423;
  }

  /** With 1,000,000 chairs the survivor sits in chair #951424. */
  lemma MillionChairs()
    ensures CalculateSurvivor(Chairs(1_000_000), true) == 951_424
    ensures FastSurvivor(1_000_000) == 951_424
  {
    MillionChairsRounds5();
    SurvivorAtIndex(Chairs(1_000_000), true);
  }

  /** A single chair is its own survivor; the brute force answers it
      without any round. */
  lemma SingleChair()
    ensures CalculateSurvivor(Chairs(1), true) == 1
  {
  }
}
