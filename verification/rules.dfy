/**
 * The condition-rule evaluator shared by every check: the failure reasons the
 * core reports, the outcome of a check, and cumulative evaluation (every named
 * condition is evaluated and every failure is reported, in declared order).
 */
module Rules {
  import opened Wrappers
  import opened Errors
  import Text

  /**
   * Every failure reason the core reports. Constructors are declared provision
   * by provision in the order the source evaluates them; `Rank` is the position
   * of the constructor in this declaration.
   */
  datatype Reason =
    // Art. 31(3)
    | NotByStatute
    | NotNecessary
    | NoLegitimateAim
    | NotProportionate
    | ViolatesEssence
    // Art. 99 and Art. 127(3)
    | NotPolishCitizen
    | Underage(minimum: int, age: int)
    | Convicted
    | LacksFullElectoralRights
    | TooFewSignatures(required: int, signatures: int)
    // Art. 55
    | PoliticalOffence
    | HumanRightsViolation
    | NoCourtRuling
    | NotCommittedAbroad
    | NoDoubleCriminality
    | CitizenExtraditionProhibited
    // Art. 103, 105, 125 and 127(2)
    | IncompatibleOffice(office: string)
    | NoProsecutionConsent(chamberName: string)
    | NoEligibleVoters
    | TurnoutNotBinding(totalVotes: int, eligibleVoters: int)
    | ReferendumRejected(votesFor: int, votesAgainst: int)
    | TermLimitReached(maximum: int, served: int)

  function Rank(r: Reason): nat
  {
    match r
    case NotByStatute => 0
    case NotNecessary => 1
    case NoLegitimateAim => 2
    case NotProportionate => 3
    case ViolatesEssence => 4
    case NotPolishCitizen => 5
    case Underage(_, _) => 6
    case Convicted => 7
    case LacksFullElectoralRights => 8
    case TooFewSignatures(_, _) => 9
    case PoliticalOffence => 10
    case HumanRightsViolation => 11
    case NoCourtRuling => 12
    case NotCommittedAbroad => 13
    case NoDoubleCriminality => 14
    case CitizenExtraditionProhibited => 15
    case IncompatibleOffice(_) => 16
    case NoProsecutionConsent(_) => 17
    case NoEligibleVoters => 18
    case TurnoutNotBinding(_, _) => 19
    case ReferendumRejected(_, _) => 20
    case TermLimitReached(_, _) => 21
  }

  /** The sentence the source writes for a reason. */
  function ReasonText(r: Reason): string
  {
    match r
    case NotByStatute => "not established by statute (ustawa)"
    case NotNecessary => "not necessary in a democratic state"
    case NoLegitimateAim =>
      "does not pursue a legitimate aim (security, public order, "
      + "environment, health, public morals, or freedoms of others)"
    case NotProportionate => "not proportionate to the aim pursued"
    case ViolatesEssence => "violates the essence of the freedom or right"
    case NotPolishCitizen => "must be a Polish citizen"
    case Underage(minimum, age) =>
      "must be at least " + Text.IntToDecimal(minimum) + " (is " + Text.IntToDecimal(age) + ")"
    case Convicted =>
      "convicted by final judgment for an intentional crime prosecuted "
      + "ex officio (Art. 99(3), nowelizacja 2009)"
    case LacksFullElectoralRights =>
      "lacks full electoral rights: convicted by final judgment for an "
      + "intentional crime prosecuted ex officio (Art. 99(3), nowelizacja 2009)"
    case TooFewSignatures(required, signatures) =>
      "needs at least " + Text.WithThousands(required) + " signatures (has "
      + Text.WithThousands(signatures) + ")"
    case PoliticalOffence =>
      "Extradition prohibited: concerns a nonviolent political offence "
      + "(przestępstwo bez użycia przemocy z przyczyn politycznych)"
    case HumanRightsViolation =>
      "Extradition prohibited: would violate human rights and freedoms "
      + "(naruszenie wolności i praw człowieka i obywatela)"
    case NoCourtRuling =>
      "Extradition inadmissible: court has not ruled on admissibility "
      + "(sąd nie orzekł o dopuszczalności ekstradycji)"
    case NotCommittedAbroad => "act was not committed outside Polish territory (Art. 55(2)(1))"
    case NoDoubleCriminality => "act does not constitute an offence under Polish law (Art. 55(2)(2))"
    case CitizenExtraditionProhibited =>
      "Extradition of a Polish citizen is prohibited "
      + "(ekstradycja obywatela polskiego jest zakazana)"
    case IncompatibleOffice(office) =>
      "A parliamentary mandate cannot be held jointly with the office "
      + "of '" + office + "'."
    case NoProsecutionConsent(chamberName) =>
      "Criminal prosecution requires consent of the " + chamberName
      + ". Immunity protects the member until consent is granted."
    case NoEligibleVoters => "Number of eligible voters must be positive."
    case TurnoutNotBinding(totalVotes, eligibleVoters) =>
      "Referendum not binding: turnout " + Text.IntToDecimal(totalVotes) + "/"
      + Text.IntToDecimal(eligibleVoters) + " does not exceed 50%."
    case ReferendumRejected(votesFor, votesAgainst) =>
      "Referendum rejected: " + Text.IntToDecimal(votesFor) + " for vs "
      + Text.IntToDecimal(votesAgainst) + " against."
    case TermLimitReached(maximum, served) =>
      "A President may serve at most " + Text.IntToDecimal(maximum) + " "
      + "consecutive terms (Art. 127(2)). "
      + "Already served: " + Text.IntToDecimal(served) + "."
  }

  function ReasonTexts(rs: seq<Reason>): seq<string>
    decreases |rs|
  {
    if rs == [] then [] else [ReasonText(rs[0])] + ReasonTexts(rs[1..])
  }

  /** `"; ".join(failures)` */
  function Detail(rs: seq<Reason>): string
  {
    Text.Join(ReasonTexts(rs), "; ")
  }

  // ---------------------------------------------------------------------------
  // Outcomes
  // ---------------------------------------------------------------------------

  /**
   * What a check does: return `True` (`Pass`), or raise `error`; `reasons` is
   * the structured list of failed conditions the error's message is built from.
   */
  datatype Outcome = Pass | Fail(error: ConstitutionalError, reasons: seq<Reason>)
  {
    /** The article the raised error cites, `None` when nothing is raised. */
    function Article(): Option<string>
    {
      if Pass? then None else error.article
    }

    /** The reported reasons, empty when nothing is raised. */
    function Reasons(): seq<Reason>
    {
      if Pass? then [] else reasons
    }
  }

  /** Raise one error of class `kind` under `article` for the single `reason`. */
  function Single(kind: ErrorKind, article: string, reason: Reason): (o: Outcome)
    requires article != ""
    ensures o.Fail? && o.error.kind == kind && o.Article() == Some(article) && o.reasons == [reason]
    ensures MessageOf(o.error) == ReasonText(reason)
    ensures o.error.text == "Art. " + article + ": " + ReasonText(reason)
  {
    MessageRoundTrip(kind, ReasonText(reason), Some(article));
    Fail(NewError(kind, ReasonText(reason), Some(article)), [reason])
  }

  // ---------------------------------------------------------------------------
  // Cumulative evaluation
  // ---------------------------------------------------------------------------

  /** One named condition: whether it holds, and what is reported when it does not. */
  datatype Condition = Condition(holds: bool, reason: Reason)

  /** The conditions are listed in the declared order of their reasons. */
  predicate DeclaredInOrder(cs: seq<Condition>)
  {
    forall i, j :: 0 <= i < j < |cs| ==> Rank(cs[i].reason) < Rank(cs[j].reason)
  }

  /** Reasons listed in strictly increasing declared order: no repeats, no reordering. */
  ghost predicate StrictlyRanked(rs: seq<Reason>)
  {
    forall i, j :: 0 <= i < j < |rs| ==> Rank(rs[i]) < Rank(rs[j])
  }

  /** `x` is the reason of some condition in `cs` that does not hold. */
  ghost predicate Fails(cs: seq<Condition>, x: Reason)
  {
    exists i :: 0 <= i < |cs| && !cs[i].holds && cs[i].reason == x
  }

  /** `rs` reports exactly the failing conditions of `cs`, each once, in declared order. */
  ghost predicate ReportsExactly(rs: seq<Reason>, cs: seq<Condition>)
  {
    StrictlyRanked(rs) && forall x :: x in rs <==> Fails(cs, x)
  }

  lemma FailsUnfold(cs: seq<Condition>)
    requires cs != []
    ensures forall x :: Fails(cs, x) <==> (!cs[0].holds && x == cs[0].reason) || Fails(cs[1..], x)
  {
  }

  lemma HoldsUnfold(cs: seq<Condition>)
    requires cs != []
    ensures (forall i :: 0 <= i < |cs| ==> cs[i].holds)
        <==> cs[0].holds && forall i :: 0 <= i < |cs[1..]| ==> cs[1..][i].holds
  {
    if cs[0].holds && forall i :: 0 <= i < |cs[1..]| ==> cs[1..][i].holds {
      forall i | 1 <= i < |cs| ensures cs[i].holds {
        assert cs[1..][i - 1] == cs[i];
      }
    }
  }

  /** A declared-order list stays in order without its head, and its head ranks below every later reason. */
  lemma DeclaredTail(cs: seq<Condition>)
    requires cs != []
    ensures DeclaredInOrder(cs) ==> DeclaredInOrder(cs[1..])
    ensures DeclaredInOrder(cs) ==> forall x :: Fails(cs[1..], x) ==> Rank(cs[0].reason) < Rank(x)
  {
  }

  /** Evaluates every condition and collects the reasons of the failing ones, in order. */
  function FailedReasons(cs: seq<Condition>): (rs: seq<Reason>)
    ensures |rs| <= |cs|
    ensures rs == [] <==> forall i :: 0 <= i < |cs| ==> cs[i].holds
    ensures forall x :: x in rs <==> Fails(cs, x)
    ensures DeclaredInOrder(cs) ==> StrictlyRanked(rs)
    decreases |cs|
  {
    if cs == [] then []
    else
      var rest := FailedReasons(cs[1..]);
      FailsUnfold(cs);
      HoldsUnfold(cs);
      DeclaredTail(cs);
      (if cs[0].holds then [] else [cs[0].reason]) + rest
  }

  /**
   * Cumulative mode: pass when every condition holds; otherwise raise one error
   * whose message is `lead` followed by every failure, joined by "; ".
   */
  function Cumulative(cs: seq<Condition>, kind: ErrorKind, article: string, lead: string): (o: Outcome)
    requires DeclaredInOrder(cs)
    ensures o.Pass? <==> forall i :: 0 <= i < |cs| ==> cs[i].holds
    ensures o.Fail? ==> o.error.kind == kind && o.Article() == Some(article)
    ensures o.Fail? ==> MessageOf(o.error) == lead + Detail(o.reasons)
    ensures o.Fail? ==> o.error == NewError(kind, lead + Detail(o.reasons), Some(article))
    ensures ReportsExactly(o.Reasons(), cs)
  {
    var failures := FailedReasons(cs);
    if failures == [] then Pass
    else
      MessageRoundTrip(kind, lead + Detail(failures), Some(article));
      Fail(NewError(kind, lead + Detail(failures), Some(article)), failures)
  }

  // ---------------------------------------------------------------------------
  // The report of a cumulative check is unique
  // ---------------------------------------------------------------------------

  lemma StrictlyRankedTail(a: seq<Reason>)
    requires a != [] && StrictlyRanked(a)
    ensures StrictlyRanked(a[1..])
    ensures forall x :: x in a[1..] ==> Rank(a[0]) < Rank(x)
  {
  }

  /** The head of a non-empty strictly ranked list is its lowest-ranked member. */
  lemma HeadRanksLowest(a: seq<Reason>, x: Reason)
    requires a != [] && StrictlyRanked(a) && x in a
    ensures Rank(a[0]) <= Rank(x)
    ensures Rank(a[0]) == Rank(x) ==> x == a[0]
  {
  }

  lemma EmptyOrHasMember(b: seq<Reason>)
    ensures b == [] || exists x :: x in b
  {
    if b != [] {
      assert b[0] in b;
    }
  }

  /** Two strictly ranked reason lists with the same members are the same list. */
  lemma {:induction false} RankedListsWithSameMembersAreEqual(a: seq<Reason>, b: seq<Reason>)
    requires StrictlyRanked(a) && StrictlyRanked(b)
    requires forall x :: x in a <==> x in b
    ensures a == b
    decreases |a|
  {
    if a == [] {
      EmptyOrHasMember(b);
    } else {
      assert a[0] in a && a[0] in b;
      HeadRanksLowest(b, a[0]);
      assert b[0] in b && b[0] in a;
      HeadRanksLowest(a, b[0]);
      assert a[0] == b[0];
      StrictlyRankedTail(a);
      StrictlyRankedTail(b);
      forall x ensures x in a[1..] <==> x in b[1..] {
        assert x in a <==> x == a[0] || x in a[1..];
        assert x in b <==> x == b[0] || x in b[1..];
      }
      RankedListsWithSameMembersAreEqual(a[1..], b[1..]);
      assert a == [a[0]] + a[1..] && b == [b[0]] + b[1..];
    }
  }

  /**
   * Order is part of the contract: there is only one list that reports exactly
   * the failing conditions, so a cumulative report never drops, repeats or
   * reorders a failure.
   */
  lemma ReportIsDetermined(a: seq<Reason>, b: seq<Reason>, cs: seq<Condition>)
    requires ReportsExactly(a, cs) && ReportsExactly(b, cs)
    ensures a == b
  {
    RankedListsWithSameMembersAreEqual(a, b);
  }

  /** The cumulative report is the list of failing reasons in declaration order. */
  lemma CumulativeReportsFailedReasons(cs: seq<Condition>, kind: ErrorKind, article: string, lead: string)
    requires DeclaredInOrder(cs)
    ensures Cumulative(cs, kind, article, lead).Reasons() == FailedReasons(cs)
  {
  }
}
