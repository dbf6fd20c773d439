/**
 * Chapter II, rights and freedoms: the Art. 31(3) proportionality test
 * (cumulative) and the Art. 55 extradition rules (ordered by precedence).
 */
module Rights {
  import opened Wrappers
  import opened Errors
  import opened Types
  import opened Rules

  // ---------------------------------------------------------------------------
  // Art. 31(3): five cumulative conditions
  // ---------------------------------------------------------------------------

  /** The five conditions of Art. 31(3), in the order they are checked. */
  function RestrictionConditions(r: RightsRestriction): seq<Condition>
  {
    [ Condition(r.byStatute, NotByStatute),
      Condition(r.necessaryInDemocraticState, NotNecessary),
      Condition(r.legitimateAim, NoLegitimateAim),
      Condition(r.proportionate, NotProportionate),
      Condition(r.preservesEssence, ViolatesEssence) ]
  }

  lemma RestrictionConditionsFacts(r: RightsRestriction)
    ensures DeclaredInOrder(RestrictionConditions(r))
    ensures Fails(RestrictionConditions(r), NotByStatute) <==> !r.byStatute
    ensures Fails(RestrictionConditions(r), NotNecessary) <==> !r.necessaryInDemocraticState
    ensures Fails(RestrictionConditions(r), NoLegitimateAim) <==> !r.legitimateAim
    ensures Fails(RestrictionConditions(r), NotProportionate) <==> !r.proportionate
    ensures Fails(RestrictionConditions(r), ViolatesEssence) <==> !r.preservesEssence
    ensures (forall i :: 0 <= i < |RestrictionConditions(r)| ==> RestrictionConditions(r)[i].holds)
        <==> r.byStatute && r.necessaryInDemocraticState && r.legitimateAim && r.proportionate && r.preservesEssence
  {
    var cs := RestrictionConditions(r);
    assert cs[0].reason == NotByStatute;
    assert cs[1].reason == NotNecessary;
    assert cs[2].reason == NoLegitimateAim;
    assert cs[3].reason == NotProportionate;
    assert cs[4].reason == ViolatesEssence;
  }

  /** `validate_rights_restriction`. */
  function ValidateRightsRestriction(r: RightsRestriction): (o: Outcome)
    ensures o.Pass? <==>
      r.byStatute && r.necessaryInDemocraticState && r.legitimateAim && r.proportionate && r.preservesEssence
    ensures o.Fail? ==> o.error.kind == RightsRestrictionViolation && o.Article() == Some("31(3)")
    ensures NotByStatute in o.Reasons() <==> !r.byStatute
    ensures NotNecessary in o.Reasons() <==> !r.necessaryInDemocraticState
    ensures NoLegitimateAim in o.Reasons() <==> !r.legitimateAim
    ensures NotProportionate in o.Reasons() <==> !r.proportionate
    ensures ViolatesEssence in o.Reasons() <==> !r.preservesEssence
    ensures ReportsExactly(o.Reasons(), RestrictionConditions(r))
    ensures o.Fail? ==>
      MessageOf(o.error) == "Restriction '" + r.description + "' fails Art. 31(3): " + Detail(o.reasons)
  {
    RestrictionConditionsFacts(r);
    Cumulative(RestrictionConditions(r), RightsRestrictionViolation, "31(3)",
               "Restriction '" + r.description + "' fails Art. 31(3): ")
  }

  /** Every Art. 31(3) reason, in the order the conditions are checked. */
  const AllRestrictionReasons: seq<Reason> :=
    [NotByStatute, NotNecessary, NoLegitimateAim, NotProportionate, ViolatesEssence]

  /** When no condition is met, the full list of reasons is the report of the five conditions. */
  lemma NoConditionMetReportsAll(r: RightsRestriction)
    requires !r.byStatute && !r.necessaryInDemocraticState && !r.legitimateAim
    requires !r.proportionate && !r.preservesEssence
    ensures ReportsExactly(AllRestrictionReasons, RestrictionConditions(r))
  {
    var all := AllRestrictionReasons;
    var cs := RestrictionConditions(r);
    assert |cs| == |all| == 5;
    assert forall i :: 0 <= i < 5 ==> !cs[i].holds && cs[i].reason == all[i];
    forall x | Fails(cs, x) ensures x in all {
      var i :| 0 <= i < |cs| && !cs[i].holds && cs[i].reason == x;
    }
    forall x | x in all ensures Fails(cs, x) {
      var i :| 0 <= i < |all| && all[i] == x;
      assert !cs[i].holds && cs[i].reason == x;
    }
    assert StrictlyRanked(all);
  }

  /** A restriction built from a description alone fails all five conditions, reported in order. */
  lemma BareRestrictionFailsEveryCondition(description: string)
    ensures ValidateRightsRestriction(RightsRestriction(description)).Reasons() == AllRestrictionReasons
  {
    var r := RightsRestriction(description);
    NoConditionMetReportsAll(r);
    ReportIsDetermined(ValidateRightsRestriction(r).Reasons(), AllRestrictionReasons, RestrictionConditions(r));
  }

  // ---------------------------------------------------------------------------
  // Art. 55: extradition, evaluated by precedence
  // ---------------------------------------------------------------------------

  /** Art. 55(3): a request of a treaty-based international court for the gravest crimes. */
  predicate TribunalException(q: ExtraditionRequest)
  {
    q.internationalJudicialBody && q.basedOnRatifiedTreaty && q.genocideOrWarCrime
  }

  /** The two Art. 55(2) sub-conditions, abroad first, then double criminality. */
  function TreatyConditions(q: ExtraditionRequest): seq<Condition>
  {
    [ Condition(q.actCommittedAbroad, NotCommittedAbroad),
      Condition(q.doubleCriminality, NoDoubleCriminality) ]
  }

  lemma TreatyConditionsFacts(q: ExtraditionRequest)
    ensures DeclaredInOrder(TreatyConditions(q))
    ensures (forall i :: 0 <= i < |TreatyConditions(q)| ==> TreatyConditions(q)[i].holds)
        <==> q.actCommittedAbroad && q.doubleCriminality
  {
    var cs := TreatyConditions(q);
    assert cs[0].holds == q.actCommittedAbroad && cs[1].holds == q.doubleCriminality;
  }

  /** When extradition is permissible, stated in one formula independent of the tier order. */
  predicate ExtraditionPermissible(q: ExtraditionRequest)
  {
    && !q.politicalNonviolentOffense
    && !q.violatesHumanRights
    && q.courtApproved
    && (|| !q.subjectIsPolishCitizen
        || TribunalException(q)
        || (q.basedOnRatifiedTreaty && q.actCommittedAbroad && q.doubleCriminality))
  }

  /** `validate_extradition`: the tiers 55(4), 55(5), non-citizen exit, 55(3), 55(2), 55(1). */
  function ValidateExtradition(q: ExtraditionRequest): (o: Outcome)
    ensures o.Pass? <==> ExtraditionPermissible(q)
    ensures o.Fail? ==> o.error.kind == Extradition && |o.reasons| >= 1
    // Art. 55(4) dominates every other fact; the political reason is checked first
    ensures q.politicalNonviolentOffense ==>
      o.Article() == Some("55(4)") && o.Reasons() == [PoliticalOffence]
    ensures !q.politicalNonviolentOffense && q.violatesHumanRights ==>
      o.Article() == Some("55(4)") && o.Reasons() == [HumanRightsViolation]
    // Art. 55(5) comes next, for citizens and non-citizens alike
    ensures !q.politicalNonviolentOffense && !q.violatesHumanRights && !q.courtApproved ==>
      o.Article() == Some("55(5)") && o.Reasons() == [NoCourtRuling]
    // past those gates a non-citizen is always extraditable
    ensures (!q.politicalNonviolentOffense && !q.violatesHumanRights && q.courtApproved
             && !q.subjectIsPolishCitizen) ==> o.Pass?
    // Art. 55(3) bypasses the Art. 55(2) conditions
    ensures (!q.politicalNonviolentOffense && !q.violatesHumanRights && q.courtApproved
             && TribunalException(q)) ==> o.Pass?
    // Art. 55(2): cumulative within its own tier
    ensures (!q.politicalNonviolentOffense && !q.violatesHumanRights && q.courtApproved
             && q.subjectIsPolishCitizen && q.basedOnRatifiedTreaty && !TribunalException(q)) ==>
        && (o.Pass? <==> q.actCommittedAbroad && q.doubleCriminality)
        && (o.Fail? ==> o.Article() == Some("55(2)"))
        && (o.Fail? ==> MessageOf(o.error) == "Extradition of Polish citizen denied: " + Detail(o.reasons))
        && ReportsExactly(o.Reasons(), TreatyConditions(q))
    // Art. 55(1): without a treaty a citizen is never extradited
    ensures (!q.politicalNonviolentOffense && !q.violatesHumanRights && q.courtApproved
             && q.subjectIsPolishCitizen && !q.basedOnRatifiedTreaty) ==>
        o.Article() == Some("55(1)") && o.Reasons() == [CitizenExtraditionProhibited]
  {
    if q.politicalNonviolentOffense then Single(Extradition, "55(4)", PoliticalOffence)
    else if q.violatesHumanRights then Single(Extradition, "55(4)", HumanRightsViolation)
    else if !q.courtApproved then Single(Extradition, "55(5)", NoCourtRuling)
    else if !q.subjectIsPolishCitizen then Pass
    else if TribunalException(q) then Pass
    else if q.basedOnRatifiedTreaty then
      TreatyConditionsFacts(q);
      Cumulative(TreatyConditions(q), Extradition, "55(2)", "Extradition of Polish citizen denied: ")
    else Single(Extradition, "55(1)", CitizenExtraditionProhibited)
  }

  /** Every extradition failure cites one of the five paragraphs of Art. 55. */
  lemma ExtraditionArticles(q: ExtraditionRequest)
    ensures ValidateExtradition(q).Fail? ==>
      ValidateExtradition(q).Article() in {Some("55(1)"), Some("55(2)"), Some("55(4)"), Some("55(5)")}
  {
  }

  /** An international-court genocide request that would violate human rights still fails under 55(4). */
  lemma HumanRightsOverrideTribunalException(q: ExtraditionRequest)
    requires TribunalException(q) && q.subjectIsPolishCitizen && q.courtApproved
    requires q.violatesHumanRights
    ensures ValidateExtradition(q).Fail? && ValidateExtradition(q).Article() == Some("55(4)")
  {
  }
}
