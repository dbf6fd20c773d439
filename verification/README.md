# Polish Constitution as code: the rule-evaluation core in Dafny

This project models the decision functions of a library that encodes rules of
the Constitution of the Republic of Poland (1997) as pure checks. Each check
either returns `True` or raises exactly one `ConstitutionalError` that carries
an article tag such as `"31(3)"` or `"55(4)"`. The model covers:

- the error constructor and its `"Art. X: "` prefix (`errors.dfy`, module `Errors`);
- the value types: dates, `Citizen` and its age computation, `VoteRecord`,
  `RightsRestriction` and `ExtraditionRequest` (`types.dfy`, module `Types`);
- the condition-rule evaluator shared by the cumulative checks. It evaluates
  every named condition and reports every failure in declared order
  (`rules.dfy`, module `Rules`);
- Chapter II: the Art. 31(3) proportionality test and the Art. 55 extradition
  rules, checked by precedence (`rights.dfy`, module `Rights`);
- Chapter IV: Sejm and Senate eligibility, the bill-passage vote wrappers,
  incompatibility of offices, parliamentary immunity and the national
  referendum (`sejm_senate.dfy`, module `SejmSenate`);
- Chapter V: presidential eligibility, the term limit, signing, veto and the
  veto override (`president.dfy`, module `President`).

A check returns an `Outcome`:

- `Pass` stands for returning `True`.
- `Fail(error, reasons)` stands for raising `error`. The error holds its class
  (`ErrorKind`), its `article` attribute and its `str()` text. `reasons` is the
  ordered list of failed conditions (`Reason` tags) that the message is rendered from.

A cumulative check is specified by `ReportsExactly(reasons, conditions)`. It
says that a reason is listed exactly when its condition fails, and that the
reasons come in strictly increasing declared order. `Rules.ReportIsDetermined`
proves that only one list meets this. So a report can never be a subset of the
failures and can never be reordered.

`passes_vote` (`konstytucja/common/voting.py`) is not part of this model. Each
chamber-vote wrapper takes it as a parameter of type `Voting.VoteEvaluator`.
The wrapper's contract fixes the chamber it accepts and the majority type it
passes on.

## Model

| member | source | states |
|---|---|---|
| Errors.NewError | src/konstytucja/common/errors.py:15-18 | `article` is stored unchanged. The text is `"Art. " + article + ": " + message` when `article` is truthy and the bare message when it is `None` or `""`. The message is always a suffix of the text |
| Errors.MessageRoundTrip | src/konstytucja/common/errors.py:15-18 | Removing the article prefix from a constructed error gives back the exact message it was built with |
| Errors.KindDoesNotAffectFormatting | src/konstytucja/common/errors.py:21-174 | No subclass overrides the constructor, so two error classes given the same message and article have the same article and text |
| Types.AgeAt | src/konstytucja/common/types.py:165-171 | `age_at` counts completed years: the anniversary of birth in year `age` is on or before the date, and the one in year `age + 1` is after it |
| Types.AgeReachedIffAnniversaryPassed | src/konstytucja/common/types.py:165-171 | The age is at least `n` exactly when the `n`-th anniversary of birth is on or before the date. This is the form the eligibility thresholds use |
| Types.AgeOnBirthday | src/konstytucja/common/types.py:169-171 | When month and day match the birth date, the age is the plain difference of years |
| Types.AgeIsMonotone | src/konstytucja/common/types.py:165-171 | Age never decreases as the date advances |
| Types.AgeOnExactAnniversary | src/konstytucja/common/types.py:165-171 | A person born `n` years to the day before a date is exactly `n` on it |
| Types.AgeOneDayShort | src/konstytucja/common/types.py:165-171 | A person born one calendar day later than that is still `n - 1`, across month and year ends and leap days |
| Types.Lookup | src/konstytucja/common/types.py:180-184 | `_AgeLookup.__getitem__` also counts completed years, by the same anniversary characterisation |
| Types.AgeOn | src/konstytucja/common/types.py:160-163 | The `age_on` lookup answers, for every date, the same age as `age_at` |
| Types.LookupAgreesWithAgeAt | src/konstytucja/common/types.py:160-163 | `citizen.age_on[d]` equals `citizen.age_at(d)` for every date |
| Types.Members | src/konstytucja/common/types.py:200-209 | An explicit `statutory_members` always wins. Otherwise the Sejm counts 460 members and the Senate 100 |
| Types.TotalPresent | src/konstytucja/common/types.py:196-198 | `total_present` is the sum of the votes for, against and abstaining: with non-negative tallies it is at least each column, and with no votes for or against it is the abstentions |
| Types.TotalPresentCountsEachBallot | src/konstytucja/common/types.py:196-198 | One more ballot in any of the three columns raises `total_present` by exactly one; the chamber and statutory membership do not change it |
| Types.TotalPresentWithoutAbstentions | src/konstytucja/common/types.py:193-198 | `votes_abstain` defaults to 0, so a record built without it has `total_present = for + against` |
| Types.CitizenDefaults | src/konstytucja/common/types.py:155-158 | A `Citizen` built from a name and a birth date is a Polish citizen without a criminal record |
| Rules.FailedReasons | src/konstytucja/chapter_02_rights.py:47-61 | Collecting failures: the result is empty iff every condition holds. A reason is in it iff its condition fails. Reasons from declared-order conditions stay strictly ordered |
| Rules.Cumulative | src/konstytucja/chapter_02_rights.py:47-68 | Cumulative mode passes iff every condition holds. Otherwise it raises one error of the given class and article, whose text is `"Art. " + article + ": "` followed by the lead text and every failure joined by "; ", and which reports exactly the failing conditions in order |
| Rules.Single | src/konstytucja/chapter_04_sejm_senate.py:223-229 | A single-reason raise: its text is `"Art. " + article + ": "` followed by the reason's sentence, and it reports that one reason |
| Rules.RankedListsWithSameMembersAreEqual | src/konstytucja/chapter_02_rights.py:47-66 | Two strictly ordered reason lists with the same members are the same list |
| Rules.ReportIsDetermined | src/konstytucja/chapter_02_rights.py:47-66 | Only one list reports exactly the failing conditions in declared order. A cumulative report therefore never drops, repeats or reorders a failure |
| Rules.CumulativeReportsFailedReasons | src/konstytucja/chapter_02_rights.py:47-66 | The reasons a cumulative check raises are the failing conditions in declaration order |
| Rights.ValidateRightsRestriction | src/konstytucja/chapter_02_rights.py:14-68 | The restriction passes iff all five Art. 31(3) flags hold. Each false flag is reported once, in the order statute, necessity, aim, proportionality, essence, under article "31(3)" with the description in the message |
| Rights.NoConditionMetReportsAll | src/konstytucja/chapter_02_rights.py:47-61 | When none of the five conditions is met, the full list statute, necessity, aim, proportionality, essence is exactly the report |
| Rights.BareRestrictionFailsEveryCondition | src/konstytucja/common/types.py:236-253 | Every flag defaults to false, so a restriction given only a description reports all five reasons in declared order |
| Rights.ValidateExtradition | src/konstytucja/chapter_02_rights.py:76-206 | Passes iff no 55(4) trigger, court approval, and either a non-citizen, the 55(3) tribunal exception, or a treaty with both 55(2) conditions. Tier by tier: political offence, then human rights (55(4)); no court ruling (55(5)); non-citizen passes; tribunal exception passes; treaty passes iff abroad and double criminality, else 55(2) with each missing sub-condition in order and the message "Extradition of Polish citizen denied: " followed by them; no treaty gives 55(1) |
| Rights.ExtraditionArticles | src/konstytucja/chapter_02_rights.py:147-206 | Every extradition failure cites 55(1), 55(2), 55(4) or 55(5) |
| Rights.HumanRightsOverrideTribunalException | tests/test_chapter_02_rights.py:316-329 | A citizen's court-approved international-tribunal genocide request that would violate human rights fails under 55(4) |
| SejmSenate.CheckSejmEligibility | src/konstytucja/chapter_04_sejm_senate.py:82-123 | Eligible iff Polish citizen, at least 21 on election day and no conviction. Otherwise "99(1)" reports every failure in the order citizenship, age (with the actual age), conviction |
| SejmSenate.CheckSenateEligibility | src/konstytucja/chapter_04_sejm_senate.py:126-159 | The same three conditions with 30 in place of 21, under "99(2)" |
| SejmSenate.SenateEligibleIsSejmEligible | src/konstytucja/chapter_04_sejm_senate.py:110-146 | Senate eligibility on a date implies Sejm eligibility on that date |
| SejmSenate.SejmAgeBoundary | tests/test_chapter_04_sejm_senate.py:58-73 | A candidate born exactly 21 years before election day is eligible. One born a calendar day later is reported only as underage, aged 20 |
| SejmSenate.SejmPassesBill | src/konstytucja/chapter_04_sejm_senate.py:167-177 | Accepts only a Sejm vote and returns `passes_vote` with a simple majority, unchanged |
| SejmSenate.SenatePassesBill | src/konstytucja/chapter_04_sejm_senate.py:180-192 | Accepts only a Senate vote and returns `passes_vote` with a simple majority, unchanged |
| SejmSenate.SejmOverridesSenate | src/konstytucja/chapter_04_sejm_senate.py:195-201 | Accepts only a Sejm vote and returns `passes_vote` with an absolute majority, unchanged |
| SejmSenate.CheckIncompatibility | src/konstytucja/chapter_04_sejm_senate.py:209-229 | Fails under "103" iff the office is exactly one of the listed strings, and reports that office |
| SejmSenate.ListedOfficesAreIncompatible | src/konstytucja/chapter_04_sejm_senate.py:51-64 | The list has twelve offices and every one of them is rejected |
| SejmSenate.MinisterIsCompatible | tests/test_chapter_04_sejm_senate.py:157-159 | matching is exact: "Minister of Finance", absent from the list, passes |
| SejmSenate.UnlistedOfficeIsCompatible | tests/test_chapter_04_sejm_senate.py:154-155 | an office the list does not name ("Teacher") passes |
| SejmSenate.ConsentErrorNamesChamber | src/konstytucja/chapter_04_sejm_senate.py:261-266 | The Art. 105 error text contains the name of the chamber whose consent is missing |
| SejmSenate.ValidateParliamentaryImmunity | src/konstytucja/chapter_04_sejm_senate.py:237-267 | Passes iff consent is given. Otherwise it raises under "105" with a message that names "Sejm" for the Sejm and "Senate" for the Senate |
| SejmSenate.DecideReferendum | src/konstytucja/chapter_04_sejm_senate.py:325-331 | With binding turnout, the motion passes iff more votes are for than against; a tie or a loss raises `ReferendumRejected(for, against)` under "125" |
| SejmSenate.TallyReferendum | src/konstytucja/chapter_04_sejm_senate.py:315-331 | For a positive electorate, turnout at or below half raises under "125(3)" with the total and the electorate; otherwise the majority test decides |
| SejmSenate.ValidateReferendum | src/konstytucja/chapter_04_sejm_senate.py:283-331 | Passes iff eligible > 0, (for + against) * 2 > eligible and for > against. The first failing test decides the error: no eligible voters ("125"), then turnout not above half ("125(3)"), then for <= against ("125") |
| SejmSenate.ReferendumBoundaries | tests/test_chapter_04_sejm_senate.py:227-241 | 300 000 + 200 000 of 1 000 000 is not binding, 300 001 + 200 000 passes, a tie is rejected as `ReferendumRejected(500000, 500000)`, and zero eligible voters is rejected |
| President.CheckPresidentialEligibility | src/konstytucja/chapter_05_president.py:37-88 | Eligible iff citizen, at least 35, no conviction and at least 100 000 signatures. Otherwise "127(3)" reports every failure in the order citizenship, age, electoral rights, signatures |
| President.PresidentEligibleIsSejmEligible | src/konstytucja/chapter_05_president.py:69-75 | Presidential eligibility on a date implies Sejm eligibility on that date |
| President.SignatureBoundary | tests/test_chapter_05_president.py:47-56 | 100 000 signatures pass, and 99 999 are reported only as too few. With the default of 0 signatures the check always fails |
| President.ThirtyFifthBirthdayOnElectionDay | tests/test_chapter_05_president.py:58-66 | A candidate turning 35 on election day is eligible |
| President.PresidentSignsBill | src/konstytucja/chapter_05_president.py:91-100 | Signing always returns true |
| President.PresidentVetoesBill | src/konstytucja/chapter_05_president.py:103-114 | Vetoing always returns true |
| President.SejmOverridesVeto | src/konstytucja/chapter_05_president.py:117-131 | Accepts only a Sejm vote and returns `passes_vote` with a three-fifths majority, unchanged |
| President.ValidatePresidentialTerm | src/konstytucja/chapter_05_president.py:139-164 | Passes iff fewer than 2 consecutive terms were served. Otherwise it raises under "127(2)" |

## Left out

- `passes_vote` and its quorum and majority formulas: `konstytucja/common/voting.py` is not part of this model. It is a caller-supplied function. So the test-pinned vote outcomes (276/460 passing a three-fifths override, 275/460 failing, 230/460 failing an absolute majority) are not stated.
- Procedure stages (`BillStage`, `AmendmentStage`, `GovernmentFormationStage`): the source has these enums but no transition logic for them.
- Python `assert` chamber checks are preconditions (`requires`), not legal errors.
- `ExtraditionRequest` is not defined in the types source. Its fields are rebuilt from their uses. Every flag except citizenship defaults to false. `requesting_state_or_body` is carried but never read.
- Dates: only the Gregorian month and day rules are modelled. The `datetime.date` year range 1..9999 is not.
- Other types with no decision logic are not modelled (`Bill`, `PublicDebt`, `EmergencyDeclaration`, `Judge`, `TribunalVerdict` and the remaining enums). Neither are constants checked only by trivial tests (`PRESIDENTIAL_TERM_YEARS` and `SEJM_TERM_YEARS` appear as plain constants).
- Integer width: Python integers are unbounded, so Dafny `int` is used without wrap-around.
- `REFERENDUM_BINDING_TURNOUT` is declared (as `ReferendumBindingTurnout`) but `validate_referendum` multiplies by the literal 2, and so does the model.
- The docstring of `senate_passes_bill` mentions an absolute majority, but the code passes a simple majority. The model follows the code.
