/**
 * The records that the child form validator reads, and the lookups it makes
 * on them. The database is an explicit value: one sequence of rows per table.
 * Datetimes are integer timestamps (seconds in one fixed time zone) and dates
 * are day numbers.
 */
module Records {

  datatype Option<+T> = None | Some(value: T)

  type Datetime = int
  type Date = int

  const SecondsPerDay: int := 86400

  /** The calendar day a timestamp falls on (Python's `datetime.date()`). */
  function DayOf(t: Datetime): (d: Date)
    ensures d * SecondsPerDay <= t < (d + 1) * SecondsPerDay
  {
    t / SecondsPerDay
  }

  /** Taking the date part never reverses the order of two timestamps. */
  lemma DayOfMonotone(t1: Datetime, t2: Datetime)
    requires t1 <= t2
    ensures DayOf(t1) <= DayOf(t2)
  {
  }

  datatype Visit = Visit(subjectIdentifier: string, reportDatetime: Datetime)

  datatype InfantBirth = InfantBirth(subjectIdentifier: string, reportDatetime: Datetime)

  datatype SubjectConsent = SubjectConsent(
    subjectIdentifier: string,
    consentDatetime: Datetime,
    screeningIdentifier: string)

  datatype ConsentVersion = ConsentVersion(screeningIdentifier: string)

  datatype ChildOffstudy = ChildOffstudy(subjectIdentifier: string)

  datatype ActionItem = ActionItem(subjectIdentifier: string, actionType: string, status: string)

  /** Name of the child off-study action type (defined by the flourish_prn package). */
  const ChildOffstudyAction: string := "submit-childoff-study"

  /** Status of an action item that has been created and not yet acted on. */
  const New: string := "New"

  datatype Database = Database(
    infantBirths: seq<InfantBirth>,
    subjectConsents: seq<SubjectConsent>,
    consentVersions: seq<ConsentVersion>,
    childOffstudies: seq<ChildOffstudy>,
    actionItems: seq<ActionItem>)

  /**
   * A lookup by subject identifier. The key may be absent (Python's None);
   * the ORM turns that into an IS NULL test, which no row matches because
   * every row has an identifier.
   */
  predicate KeyMatches(key: Option<string>, subjectIdentifier: string)
    ensures key.None? ==> !KeyMatches(key, subjectIdentifier)
    ensures key.Some? ==> (KeyMatches(key, subjectIdentifier) <==> key.value == subjectIdentifier)
  {
    key == Some(subjectIdentifier)
  }

  /** The birth record of an infant, if one exists (`objects.get`). */
  function FindInfantBirth(births: seq<InfantBirth>, key: Option<string>): (r: Option<InfantBirth>)
    ensures r.Some? ==> r.value in births && KeyMatches(key, r.value.subjectIdentifier)
    ensures r.None? <==> forall b :: b in births ==> !KeyMatches(key, b.subjectIdentifier)
  {
    if births == [] then None
    else if KeyMatches(key, births[0].subjectIdentifier) then Some(births[0])
    else FindInfantBirth(births[1..], key)
  }

  /** Scans the off-study table for a record of the subject. */
  function HasChildOffstudy(offstudies: seq<ChildOffstudy>, key: Option<string>): (found: bool)
    ensures found <==> exists o | o in offstudies :: KeyMatches(key, o.subjectIdentifier)
  {
    offstudies != [] &&
    (KeyMatches(key, offstudies[0].subjectIdentifier) || HasChildOffstudy(offstudies[1..], key))
  }

  /** An action item of the subject that is a child off-study action in status NEW. */
  predicate IsPendingOffstudyAction(a: ActionItem, key: Option<string>) {
    KeyMatches(key, a.subjectIdentifier) && a.actionType == ChildOffstudyAction && a.status == New
  }

  /** Scans the action-item table for a pending child off-study action of the subject. */
  function HasPendingOffstudyAction(items: seq<ActionItem>, key: Option<string>): (found: bool)
    ensures found <==> exists a | a in items :: IsPendingOffstudyAction(a, key)
  {
    items != [] &&
    (IsPendingOffstudyAction(items[0], key) || HasPendingOffstudyAction(items[1..], key))
  }

  /** Scans the consent-version table for a record with the given screening identifier. */
  function HasConsentVersion(versions: seq<ConsentVersion>, screeningIdentifier: string): (found: bool)
    ensures found <==> exists v | v in versions :: v.screeningIdentifier == screeningIdentifier
  {
    versions != [] &&
    (versions[0].screeningIdentifier == screeningIdentifier || HasConsentVersion(versions[1..], screeningIdentifier))
  }

  /**
   * Python's `s[:-3]`: the string without its last three characters, or the
   * empty string when it has fewer than three.
   */
  function DropLastThree(s: string): (r: string)
    ensures |s| >= 3 ==> |r| == |s| - 3
    ensures |s| < 3 ==> r == []
    ensures r <= s
  {
    if |s| >= 3 then s[..|s| - 3] else []
  }

  /**
   * The consent with the greatest consent datetime among those of the given
   * subject (`filter(...).latest('consent_datetime')`), or None when the
   * subject has none. Among equal datetimes the first row is kept.
   */
  function LatestConsent(consents: seq<SubjectConsent>, subjectIdentifier: string): (r: Option<SubjectConsent>)
    ensures r.Some? ==> r.value in consents && r.value.subjectIdentifier == subjectIdentifier
    ensures r.Some? ==> forall c :: c in consents && c.subjectIdentifier == subjectIdentifier ==>
                          c.consentDatetime <= r.value.consentDatetime
    ensures r.None? <==> forall c :: c in consents ==> c.subjectIdentifier != subjectIdentifier
  {
    if consents == [] then None
    else
      var rest := LatestConsent(consents[1..], subjectIdentifier);
      var c := consents[0];
      if c.subjectIdentifier != subjectIdentifier then rest
      else if rest.Some? && c.consentDatetime < rest.value.consentDatetime then rest
      else Some(c)
  }

  /**
   * Ties are not broken in any defined order, but the timestamp of the latest
   * consent is: two tables holding the same rows, in any order, agree on it.
   */
  lemma LatestConsentDatetimeDetermined(c1: seq<SubjectConsent>, c2: seq<SubjectConsent>, subjectIdentifier: string)
    requires forall c :: c in c1 <==> c in c2
    ensures LatestConsent(c1, subjectIdentifier).Some? <==> LatestConsent(c2, subjectIdentifier).Some?
    ensures LatestConsent(c1, subjectIdentifier).Some? ==>
              LatestConsent(c1, subjectIdentifier).value.consentDatetime
              == LatestConsent(c2, subjectIdentifier).value.consentDatetime
  {
  }
}
