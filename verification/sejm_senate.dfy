/**
 * Chapter IV, the Sejm and the Senate: eligibility (Art. 99), bill passage
 * (Art. 120-121), incompatibility of offices (Art. 103), immunity (Art. 105)
 * and the national referendum (Art. 125).
 */
module SejmSenate {
  import opened Wrappers
  import opened Errors
  import opened Types
  import opened Rules
  import opened Voting
  import Text

  /** Art. 98(1): both chambers are elected for four years (their sizes are `Types.SejmDeputies` and `Types.SenateSenators`). */
  const SejmTermYears: int := 4

  /** Art. 103: offices that cannot be held together with a deputy's mandate. */
  const IncompatibleWithDeputy: seq<string> := [
    "Senator",
    "President of the National Bank of Poland",
    "President of the Supreme Chamber of Control",
    "Commissioner for Citizens' Rights",
    "Commissioner for Children's Rights",
    "Member of the Council for Monetary Policy",
    "Member of the National Council of Radio Broadcasting and Television",
    "Ambassador",
    "Civil servant",
    "Soldier on active duty",
    "Police officer",
    "Security services officer"
  ]

  /** Art. 125(3): turnout is binding when it exceeds one half of the eligible voters. */
  const ReferendumBindingTurnout: int := 2

  // ---------------------------------------------------------------------------
  // Eligibility (Art. 99)
  // ---------------------------------------------------------------------------

  /** The Art. 99 conditions for a chamber with the given minimum age: citizenship, age, conviction. */
  function ChamberConditions(c: Citizen, electionDate: Date, minimumAge: int): seq<Condition>
  {
    var age := AgeAt(c, electionDate);
    [ Condition(c.polishCitizen, NotPolishCitizen),
      Condition(age >= minimumAge, Underage(minimumAge, age)),
      Condition(!c.criminalRecord, Convicted) ]
  }

  lemma ChamberConditionsFacts(c: Citizen, electionDate: Date, minimumAge: int)
    ensures DeclaredInOrder(ChamberConditions(c, electionDate, minimumAge))
    ensures (forall i :: 0 <= i < 3 ==> ChamberConditions(c, electionDate, minimumAge)[i].holds)
        <==> c.polishCitizen && AgeAt(c, electionDate) >= minimumAge && !c.criminalRecord
  {
    var cs := ChamberConditions(c, electionDate, minimumAge);
    assert cs[0].holds == c.polishCitizen;
    assert cs[1].holds == (AgeAt(c, electionDate) >= minimumAge);
    assert cs[2].holds == !c.criminalRecord;
  }

  /** `check_sejm_eligibility`: Art. 99(1) and 99(3). */
  function CheckSejmEligibility(c: Citizen, electionDate: Date): (o: Outcome)
    ensures o.Pass? <==> c.polishCitizen && AgeAt(c, electionDate) >= 21 && !c.criminalRecord
    ensures o.Fail? ==> o.error.kind == Eligibility && o.Article() == Some("99(1)")
    ensures ReportsExactly(o.Reasons(), ChamberConditions(c, electionDate, 21))
    ensures o.Fail? ==> MessageOf(o.error) == c.name + " ineligible for Sejm: " + Detail(o.reasons)
  {
    ChamberConditionsFacts(c, electionDate, 21);
    Cumulative(ChamberConditions(c, electionDate, 21), Eligibility, "99(1)", c.name + " ineligible for Sejm: ")
  }

  /** `check_senate_eligibility`: Art. 99(2) and 99(3). */
  function CheckSenateEligibility(c: Citizen, electionDate: Date): (o: Outcome)
    ensures o.Pass? <==> c.polishCitizen && AgeAt(c, electionDate) >= 30 && !c.criminalRecord
    ensures o.Fail? ==> o.error.kind == Eligibility && o.Article() == Some("99(2)")
    ensures ReportsExactly(o.Reasons(), ChamberConditions(c, electionDate, 30))
    ensures o.Fail? ==> MessageOf(o.error) == c.name + " ineligible for Senate: " + Detail(o.reasons)
  {
    ChamberConditionsFacts(c, electionDate, 30);
    Cumulative(ChamberConditions(c, electionDate, 30), Eligibility, "99(2)", c.name + " ineligible for Senate: ")
  }

  /** Whoever may sit in the Senate may sit in the Sejm on the same date. */
  lemma SenateEligibleIsSejmEligible(c: Citizen, electionDate: Date)
    requires CheckSenateEligibility(c, electionDate).Pass?
    ensures CheckSejmEligibility(c, electionDate).Pass?
  {
  }

  /**
   * Age boundary of Art. 99(1): a candidate born exactly 21 years before
   * election day is old enough; one born a day later is reported as 20.
   */
  lemma SejmAgeBoundary(c: Citizen, electionDate: Date)
    requires c.polishCitizen && !c.criminalRecord
    requires ValidDate(Date(electionDate.year - 21, electionDate.month, electionDate.day))
    ensures c.dateOfBirth == Date(electionDate.year - 21, electionDate.month, electionDate.day) ==>
      CheckSejmEligibility(c, electionDate).Pass?
    ensures c.dateOfBirth == NextDay(Date(electionDate.year - 21, electionDate.month, electionDate.day)) ==>
      CheckSejmEligibility(c, electionDate).Reasons() == [Underage(21, 20)]
  {
    var cutoff := Date(electionDate.year - 21, electionDate.month, electionDate.day);
    if c.dateOfBirth == cutoff {
      AgeOnExactAnniversary(c, electionDate, 21);
    }
    if c.dateOfBirth == NextDay(cutoff) {
      AgeOneDayShort(c, electionDate, 21);
      OnlyAgeFails(c, electionDate, 21, [Underage(21, 20)]);
    }
  }

  /** With citizenship and a clean record, only the age condition can be reported. */
  lemma OnlyAgeFails(c: Citizen, electionDate: Date, minimumAge: int, expected: seq<Reason>)
    requires c.polishCitizen && !c.criminalRecord
    requires AgeAt(c, electionDate) < minimumAge
    requires expected == [Underage(minimumAge, AgeAt(c, electionDate))]
    ensures forall rs :: ReportsExactly(rs, ChamberConditions(c, electionDate, minimumAge)) ==> rs == expected
  {
    var cs := ChamberConditions(c, electionDate, minimumAge);
    assert Fails(cs, expected[0]) by { assert !cs[1].holds && cs[1].reason == expected[0]; }
    forall x | Fails(cs, x) ensures x in expected {
      var i :| 0 <= i < |cs| && !cs[i].holds && cs[i].reason == x;
      assert i == 1;
    }
    forall rs | ReportsExactly(rs, cs) ensures rs == expected {
      ReportIsDetermined(rs, expected, cs);
    }
  }

  // ---------------------------------------------------------------------------
  // Bill passage (Art. 120-121)
  // ---------------------------------------------------------------------------

  /** `sejm_passes_bill`: Art. 120, simple majority in the Sejm. */
  function SejmPassesBill(passesVote: VoteEvaluator, vote: VoteRecord): (o: Outcome)
    requires vote.chamber == Sejm
    ensures o == passesVote(vote, Simple)
  {
    passesVote(vote, Simple)
  }

  /** `senate_passes_bill`: the Senate's vote is evaluated with a simple majority. */
  function SenatePassesBill(passesVote: VoteEvaluator, vote: VoteRecord): (o: Outcome)
    requires vote.chamber == Senate
    ensures o == passesVote(vote, Simple)
  {
    passesVote(vote, Simple)
  }

  /** `sejm_overrides_senate`: Art. 121(3), absolute majority in the Sejm. */
  function SejmOverridesSenate(passesVote: VoteEvaluator, vote: VoteRecord): (o: Outcome)
    requires vote.chamber == Sejm
    ensures o == passesVote(vote, Absolute)
  {
    passesVote(vote, Absolute)
  }

  // ---------------------------------------------------------------------------
  // Incompatibilitas (Art. 103)
  // ---------------------------------------------------------------------------

  /** `check_incompatibility`: an exact match against the Art. 103 list fails. */
  function CheckIncompatibility(office: string): (o: Outcome)
    ensures o.Pass? <==> office !in IncompatibleWithDeputy
    ensures o.Fail? ==> o.error.kind == Incompatibility && o.Article() == Some("103")
    ensures o.Fail? ==> o.reasons == [IncompatibleOffice(office)]
  {
    if office in IncompatibleWithDeputy then Single(Incompatibility, "103", IncompatibleOffice(office))
    else Pass
  }

  /** Each of the twelve listed offices is rejected. */
  lemma ListedOfficesAreIncompatible()
    ensures |IncompatibleWithDeputy| == 12
    ensures forall i :: 0 <= i < 12 ==> CheckIncompatibility(IncompatibleWithDeputy[i]).Fail?
  {
  }

  /** No listed office is 19 characters long, and the only one of 7 is "Senator". */
  lemma ListedOfficeLengths(office: string)
    requires office in IncompatibleWithDeputy
    ensures |office| != 19
    ensures |office| == 7 ==> office == "Senator"
  {
    var l := IncompatibleWithDeputy;
    assert |l[0]| == 7 && |l[1]| == 40 && |l[2]| == 43 && |l[3]| == 33 && |l[4]| == 34 && |l[5]| == 41;
    assert |l[6]| == 67 && |l[7]| == 10 && |l[8]| == 13 && |l[9]| == 22 && |l[10]| == 14 && |l[11]| == 25;
  }

  /** Membership is exact: a minister's office is not on the list, so it is compatible. */
  lemma MinisterIsCompatible()
    ensures CheckIncompatibility("Minister of Finance").Pass?
  {
    if "Minister of Finance" in IncompatibleWithDeputy {
      ListedOfficeLengths("Minister of Finance");
    }
  }

  /** An office the list does not name is compatible. */
  lemma UnlistedOfficeIsCompatible()
    ensures CheckIncompatibility("Teacher").Pass?
  {
    if "Teacher" in IncompatibleWithDeputy {
      ListedOfficeLengths("Teacher");
    }
  }

  // ---------------------------------------------------------------------------
  // Parliamentary immunity (Art. 105)
  // ---------------------------------------------------------------------------

  /** The body whose consent is required, as the message names it. */
  function ConsentingChamberName(chamber: Chamber): string
  {
    if chamber == Sejm then "Sejm" else "Senate"
  }

  /** The Art. 105 error names the chamber whose consent is missing. */
  lemma ConsentErrorNamesChamber(name: string)
    ensures Text.Mentions(Single(Immunity, "105", NoProsecutionConsent(name)).error.text, name)
  {
    var reason := ReasonText(NoProsecutionConsent(name));
    var before := "Criminal prosecution requires consent of the ";
    var after := ". Immunity protects the member until consent is granted.";
    assert reason == before + name + after;
    Text.MentionsMiddle(before, name, after);
    Text.MentionsAfterPrefix("Art. " + "105" + ": ", reason, name);
  }

  /** `validate_parliamentary_immunity`: prosecution needs the chamber's consent. */
  function ValidateParliamentaryImmunity(chamber: Chamber, consentGiven: bool): (o: Outcome)
    ensures o.Pass? <==> consentGiven
    ensures o.Fail? ==> o.error.kind == Immunity && o.Article() == Some("105")
    ensures o.Fail? && chamber == Sejm ==> Text.Mentions(o.error.text, "Sejm")
    ensures o.Fail? && chamber == Senate ==> Text.Mentions(o.error.text, "Senate")
  {
    if !consentGiven then
      var name := ConsentingChamberName(chamber);
      ConsentErrorNamesChamber(name);
      Single(Immunity, "105", NoProsecutionConsent(name))
    else Pass
  }

  // ---------------------------------------------------------------------------
  // National referendum (Art. 125)
  // ---------------------------------------------------------------------------

  /** The majority test of `validate_referendum`: a tie or a loss rejects the motion. */
  function DecideReferendum(votesFor: int, votesAgainst: int): (o: Outcome)
    ensures o.Pass? <==> votesFor > votesAgainst
    ensures o.Fail? ==>
      o.error.kind == Referendum && o.Article() == Some("125")
      && o.reasons == [ReferendumRejected(votesFor, votesAgainst)]
  {
    if votesFor <= votesAgainst then Single(Referendum, "125", ReferendumRejected(votesFor, votesAgainst))
    else Pass
  }

  /** The turnout and majority tests of `validate_referendum`, once the electorate is known to be positive. */
  function TallyReferendum(votesFor: int, votesAgainst: int, eligibleVoters: int): (o: Outcome)
    requires eligibleVoters > 0
    ensures o.Pass? <==> (votesFor + votesAgainst) * 2 > eligibleVoters && votesFor > votesAgainst
    ensures (votesFor + votesAgainst) * 2 <= eligibleVoters ==>
      && o.Fail? && o.error.kind == Referendum && o.Article() == Some("125(3)")
      && o.reasons == [TurnoutNotBinding(votesFor + votesAgainst, eligibleVoters)]
    ensures (votesFor + votesAgainst) * 2 > eligibleVoters && votesFor <= votesAgainst ==>
      && o.Fail? && o.error.kind == Referendum && o.Article() == Some("125")
      && o.reasons == [ReferendumRejected(votesFor, votesAgainst)]
  {
    var totalVotes := votesFor + votesAgainst;
    if totalVotes * 2 <= eligibleVoters then
      Single(Referendum, "125(3)", TurnoutNotBinding(totalVotes, eligibleVoters))
    else DecideReferendum(votesFor, votesAgainst)
  }

  /** `validate_referendum`: positive electorate, binding turnout, then more votes for than against. */
  function ValidateReferendum(votesFor: int, votesAgainst: int, eligibleVoters: int): (o: Outcome)
    ensures o.Pass? <==>
      eligibleVoters > 0 && (votesFor + votesAgainst) * 2 > eligibleVoters && votesFor > votesAgainst
    ensures o.Fail? ==> o.error.kind == Referendum && |o.reasons| == 1
    ensures eligibleVoters <= 0 ==> o.Article() == Some("125") && o.Reasons() == [NoEligibleVoters]
    ensures eligibleVoters > 0 && (votesFor + votesAgainst) * 2 <= eligibleVoters ==>
      o.Article() == Some("125(3)") && o.Reasons() == [TurnoutNotBinding(votesFor + votesAgainst, eligibleVoters)]
    ensures eligibleVoters > 0 && (votesFor + votesAgainst) * 2 > eligibleVoters && votesFor <= votesAgainst ==>
      o.Article() == Some("125") && o.Reasons() == [ReferendumRejected(votesFor, votesAgainst)]
  {
    if eligibleVoters <= 0 then Single(Referendum, "125", NoEligibleVoters)
    else TallyReferendum(votesFor, votesAgainst, eligibleVoters)
  }

  /** Exactly half the electorate is not binding; one more vote is; a tie is rejected. */
  lemma ReferendumBoundaries()
    ensures ValidateReferendum(300_000, 200_000, 1_000_000).Article() == Some("125(3)")
    ensures ValidateReferendum(300_001, 200_000, 1_000_000).Pass?
    ensures ValidateReferendum(500_000, 500_000, 1_000_000).Article() == Some("125")
    ensures ValidateReferendum(500_000, 500_000, 1_000_000).Reasons() == [ReferendumRejected(500_000, 500_000)]
    ensures ValidateReferendum(100, 50, 0).Article() == Some("125")
  {
  }
}
