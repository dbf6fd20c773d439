/**
 * The constitutional error hierarchy. Every subclass inherits the base
 * constructor unchanged, so the class is only a tag on an otherwise uniform
 * error value.
 */
module Errors {
  import opened Wrappers

  /** One tag per exception class; `Constitutional` is the base class itself. */
  datatype ErrorKind =
    | Constitutional
    | Quorum
    | Majority
    | Eligibility
    | LegalHierarchy
    | DebtCeiling
    | EmergencyPower
    | Amendment
    | LegislativeProcess
    | RightsRestrictionViolation  // `RightsRestrictionError`
    | GovernmentFormation
    | NoConfidence
    | LocalGovernment
    | Oversight
    | Judicial
    | Incompatibility
    | Immunity
    | Referendum
    | StateTribunal
    | CentralBank
    | Tribunal
    | LifeProtection
    | Extradition

  /** A raised error: its class, its `article` attribute and `str(error)`. */
  datatype ConstitutionalError = ConstitutionalError(kind: ErrorKind, article: Option<string>, text: string)

  /** Python truthiness of the `article` argument: neither `None` nor `""`. */
  predicate HasArticle(article: Option<string>)
  {
    article.Some? && article.value != ""
  }

  function ArticlePrefix(article: Option<string>): string
  {
    if HasArticle(article) then "Art. " + article.value + ": " else ""
  }

  /** The shared constructor `ConstitutionalError(message, article=None)` of every error class. */
  function NewError(kind: ErrorKind, message: string, article: Option<string> := None): (e: ConstitutionalError)
    ensures e.kind == kind && e.article == article
    ensures |message| <= |e.text| && e.text[|e.text| - |message|..] == message
    ensures !HasArticle(article) ==> e.text == message
    ensures HasArticle(article) ==> e.text == "Art. " + article.value + ": " + message
  {
    ConstitutionalError(kind, article, ArticlePrefix(article) + message)
  }

  /** Recovers the `message` a raised error was constructed with, by removing the article prefix. */
  function MessageOf(e: ConstitutionalError): string
  {
    var prefix := ArticlePrefix(e.article);
    if |prefix| <= |e.text| && e.text[..|prefix|] == prefix then e.text[|prefix|..] else e.text
  }

  /** The message passed to the constructor survives formatting unchanged. */
  lemma MessageRoundTrip(kind: ErrorKind, message: string, article: Option<string>)
    ensures MessageOf(NewError(kind, message, article)) == message
  {
  }

  /** No subclass overrides the constructor: the error class never changes the article or the text. */
  lemma KindDoesNotAffectFormatting(k1: ErrorKind, k2: ErrorKind, message: string, article: Option<string>)
    ensures NewError(k1, message, article).article == NewError(k2, message, article).article
    ensures NewError(k1, message, article).text == NewError(k2, message, article).text
  {
  }
}
