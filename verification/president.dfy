/**
 * Chapter V, the President: eligibility (Art. 127(3)), the term limit
 * (Art. 127(2)), signing, veto and the Sejm's veto override (Art. 122).
 */
module President {
  import opened Wrappers
  import opened Errors
  import opened Types
  import opened Rules
  import opened Voting
  import SejmSenate

  /** Art. 127(2): a five-year term, renewable once. */
  const PresidentialTermYears: int := 5
  const MaxPresidentialTerms: int := 2

  /** Art. 127(3): a candidate is nominated by at least 100 000 citizens. */
  const MinSignatures: int := 100_000

  /** The Art. 127(3) conditions: citizenship, age 35, full electoral rights, signatures. */
  function PresidentialConditions(c: Citizen, electionDate: Date, signatures: int): seq<Condition>
  {
    var age := AgeAt(c, electionDate);
    [ Condition(c.polishCitizen, NotPolishCitizen),
      Condition(age >= 35, Underage(35, age)),
      Condition(!c.criminalRecord, LacksFullElectoralRights),
      Condition(signatures >= MinSignatures, TooFewSignatures(MinSignatures, signatures)) ]
  }

  lemma PresidentialConditionsFacts(c: Citizen, electionDate: Date, signatures: int)
    ensures DeclaredInOrder(PresidentialConditions(c, electionDate, signatures))
    ensures (forall i :: 0 <= i < 4 ==> PresidentialConditions(c, electionDate, signatures)[i].holds)
        <==> c.polishCitizen && AgeAt(c, electionDate) >= 35 && !c.criminalRecord && signatures >= 100_000
  {
    var cs := PresidentialConditions(c, electionDate, signatures);
    assert cs[0].holds == c.polishCitizen;
    assert cs[1].holds == (AgeAt(c, electionDate) >= 35);
    assert cs[2].holds == !c.criminalRecord;
    assert cs[3].holds == (signatures >= 100_000);
  }

  /** `check_presidential_eligibility`; `signatures` defaults to 0. */
  function CheckPresidentialEligibility(c: Citizen, electionDate: Date, signatures: int := 0): (o: Outcome)
    ensures o.Pass? <==>
      c.polishCitizen && AgeAt(c, electionDate) >= 35 && !c.criminalRecord && signatures >= 100_000
    ensures o.Fail? ==> o.error.kind == Eligibility && o.Article() == Some("127(3)")
    ensures ReportsExactly(o.Reasons(), PresidentialConditions(c, electionDate, signatures))
    ensures o.Fail? ==> MessageOf(o.error) == c.name + " ineligible for presidency: " + Detail(o.reasons)
  {
    PresidentialConditionsFacts(c, electionDate, signatures);
    Cumulative(PresidentialConditions(c, electionDate, signatures), Eligibility, "127(3)",
               c.name + " ineligible for presidency: ")
  }

  /** Whoever may be elected President may be elected to the Sejm on the same date. */
  lemma PresidentEligibleIsSejmEligible(c: Citizen, electionDate: Date, signatures: int)
    requires CheckPresidentialEligibility(c, electionDate, signatures).Pass?
    ensures SejmSenate.CheckSejmEligibility(c, electionDate).Pass?
  {
  }

  /** The signature threshold is inclusive, and omitting the count always fails. */
  lemma SignatureBoundary(c: Citizen, electionDate: Date)
    requires c.polishCitizen && !c.criminalRecord && AgeAt(c, electionDate) >= 35
    ensures CheckPresidentialEligibility(c, electionDate, 100_000).Pass?
    ensures CheckPresidentialEligibility(c, electionDate, 99_999).Reasons() == [TooFewSignatures(100_000, 99_999)]
    ensures CheckPresidentialEligibility(c, electionDate).Fail?
  {
    var cs := PresidentialConditions(c, electionDate, 99_999);
    var expected := [TooFewSignatures(100_000, 99_999)];
    assert Fails(cs, expected[0]) by { assert !cs[3].holds && cs[3].reason == expected[0]; }
    forall x | Fails(cs, x) ensures x in expected {
      var i :| 0 <= i < |cs| && !cs[i].holds && cs[i].reason == x;
      assert i == 3;
    }
    ReportIsDetermined(CheckPresidentialEligibility(c, electionDate, 99_999).Reasons(), expected, cs);
  }

  /** A candidate who turns 35 on election day is old enough. */
  lemma ThirtyFifthBirthdayOnElectionDay(c: Citizen, electionDate: Date)
    requires c.polishCitizen && !c.criminalRecord
    requires c.dateOfBirth == Date(electionDate.year - 35, electionDate.month, electionDate.day)
    ensures CheckPresidentialEligibility(c, electionDate, 100_000).Pass?
  {
  }

  /** `president_signs_bill`: Art. 122(2), signing always succeeds. */
  function PresidentSignsBill(): (signed: bool)
    ensures signed
  {
    true
  }

  /** `president_vetoes_bill`: Art. 122(5), a veto always succeeds. */
  function PresidentVetoesBill(): (vetoed: bool)
    ensures vetoed
  {
    true
  }

  /** `sejm_overrides_veto`: Art. 122(5), three-fifths majority in the Sejm. */
  function SejmOverridesVeto(passesVote: VoteEvaluator, vote: VoteRecord): (o: Outcome)
    requires vote.chamber == Sejm
    ensures o == passesVote(vote, ThreeFifths)
  {
    passesVote(vote, ThreeFifths)
  }

  /** `validate_presidential_term`: Art. 127(2), at most two consecutive terms. */
  function ValidatePresidentialTerm(consecutiveTermsServed: int): (o: Outcome)
    ensures o.Pass? <==> consecutiveTermsServed < 2
    ensures o.Fail? ==> o.error.kind == Eligibility && o.Article() == Some("127(2)")
    ensures o.Fail? ==> o.reasons == [TermLimitReached(2, consecutiveTermsServed)]
  {
    if consecutiveTermsServed >= MaxPresidentialTerms then
      Single(Eligibility, "127(2)", TermLimitReached(MaxPresidentialTerms, consecutiveTermsServed))
    else Pass
  }
}
