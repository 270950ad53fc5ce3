/**
 * The guards of the child form validator mixin and its `clean` step.
 *
 * Each guard is a function of the submitted form data and of the database
 * that either passes or fails with a validation error. `clean` is a method
 * of the validator object: it records the effective subject identifier in
 * the object and runs the guards in a fixed order.
 */
module FormValidator {
  import opened Records

  datatype ErrorKind =
    | MissingBirthForm        // "Please complete Infant Birth form before proceeding."
    | BeforeEnrolment         // "Report datetime cannot be before enrollemt datetime."
    | BeforeVisit             // "Report datetime cannot be before visit datetime."
    | OffstudyDate            // "offstudy date cannot be before visit date."
    | ScheduledOffstudy       // "Participant is scheduled to be taken offstudy ..."
    | AlreadyOffstudy         // "Participant has been taken offstudy ..."
    | MissingConsentVersion   // "Consent version form has not been completed ..."

  /** A validation error, either for the whole form or keyed to one field. */
  datatype ValidationError = ValidationError(kind: ErrorKind, field: Option<string>)

  datatype Outcome = Pass | Fail(error: ValidationError)

  datatype Result<+T> = Ok(value: T) | Err(error: ValidationError)

  function FormError(kind: ErrorKind): ValidationError {
    ValidationError(kind, None)
  }

  /** The fields of the submitted form that the mixin reads. */
  datatype CleanedData = CleanedData(
    childVisit: Option<Visit>,
    reportDatetime: Option<Datetime>,
    subjectIdentifier: Option<string>)

  /** An optional timestamp that is absent or not before the reference. */
  predicate NotBefore(t: Option<int>, reference: int) {
    t.None? || reference <= t.value
  }

  /**
   * The infant's birth record, if the report is not dated before it.
   * A missing birth record is reported whatever the report datetime.
   */
  function ValidateAgainstBirthDate(db: Database, infantIdentifier: Option<string>,
                                    reportDatetime: Option<Datetime>): (r: Result<InfantBirth>)
    ensures r == Err(FormError(MissingBirthForm)) <==>
              forall b :: b in db.infantBirths ==> !KeyMatches(infantIdentifier, b.subjectIdentifier)
    ensures r.Ok? ==> r.value in db.infantBirths && infantIdentifier == Some(r.value.subjectIdentifier) &&
                      NotBefore(reportDatetime, r.value.reportDatetime)
    ensures r.Err? ==> r.error == FormError(MissingBirthForm) || r.error == FormError(BeforeEnrolment)
    ensures r == Err(FormError(BeforeEnrolment)) ==>
              reportDatetime.Some? &&
              exists b | b in db.infantBirths :: KeyMatches(infantIdentifier, b.subjectIdentifier) &&
                                                 reportDatetime.value < b.reportDatetime
    ensures ((exists b | b in db.infantBirths :: KeyMatches(infantIdentifier, b.subjectIdentifier)) &&
             (forall b :: b in db.infantBirths && KeyMatches(infantIdentifier, b.subjectIdentifier) ==>
                            NotBefore(reportDatetime, b.reportDatetime)))
            ==> r.Ok?
  {
    match FindInfantBirth(db.infantBirths, infantIdentifier)
    case None => Err(FormError(MissingBirthForm))
    case Some(infantBirth) =>
      if reportDatetime.Some? && reportDatetime.value < infantBirth.reportDatetime then
        Err(FormError(BeforeEnrolment))
      else
        Ok(infantBirth)
  }

  /**
   * Moving the report later never turns a passing birth-date check into a
   * failing one, and the record returned stays the same.
   */
  lemma BirthDateCheckMonotone(db: Database, infantIdentifier: Option<string>, t: Datetime, t': Datetime)
    requires t <= t'
    requires ValidateAgainstBirthDate(db, infantIdentifier, Some(t)).Ok?
    ensures ValidateAgainstBirthDate(db, infantIdentifier, Some(t'))
            == ValidateAgainstBirthDate(db, infantIdentifier, None)
            == ValidateAgainstBirthDate(db, infantIdentifier, Some(t))
  {
  }

  /**
   * The report datetime must not be before the linked visit's.
   * `validate_against_visit_datetime` reads the visit only when a report
   * datetime is given, and fails with an attribute error if none is linked
   * then.
   */
  function ValidateAgainstVisitDatetime(data: CleanedData, reportDatetime: Option<Datetime>): (r: Outcome)
    requires reportDatetime.Some? ==> data.childVisit.Some?
    ensures r.Pass? <==> (reportDatetime.None? || NotBefore(reportDatetime, data.childVisit.value.reportDatetime))
    ensures r.Fail? ==> r.error == FormError(BeforeVisit)
  {
    if reportDatetime.Some? && reportDatetime.value < data.childVisit.value.reportDatetime then
      Fail(FormError(BeforeVisit))
    else
      Pass
  }

  /**
   * The off-study date must not be before the day of the linked visit. The
   * error is keyed to the field `offstudy_date`.
   */
  function ValidateAgainstVisitDate(data: CleanedData, offstudyDate: Option<Date>): (r: Outcome)
    requires offstudyDate.Some? ==> data.childVisit.Some?
    ensures r.Pass? <==> (offstudyDate.None? || NotBefore(offstudyDate, DayOf(data.childVisit.value.reportDatetime)))
    ensures r.Fail? ==> r.error == ValidationError(OffstudyDate, Some("offstudy_date"))
  {
    if offstudyDate.Some? && offstudyDate.value < DayOf(data.childVisit.value.reportDatetime) then
      Fail(ValidationError(OffstudyDate, Some("offstudy_date")))
    else
      Pass
  }

  /**
   * A report datetime that passes the visit-datetime check gives a date that
   * passes the visit-date check.
   */
  lemma VisitDatetimeOkGivesVisitDateOk(data: CleanedData, t: Datetime)
    requires data.childVisit.Some?
    requires ValidateAgainstVisitDatetime(data, Some(t)).Pass?
    ensures ValidateAgainstVisitDate(data, Some(DayOf(t))).Pass?
  {
    DayOfMonotone(data.childVisit.value.reportDatetime, t);
  }

  /**
   * The subject may not have new data captured: a pending off-study action
   * is checked first, an existing off-study record second.
   */
  function ValidateOffstudyModel(db: Database, subjectIdentifier: Option<string>): (r: Outcome)
    ensures HasPendingOffstudyAction(db.actionItems, subjectIdentifier) ==>
              r == Fail(FormError(ScheduledOffstudy))
    ensures !HasPendingOffstudyAction(db.actionItems, subjectIdentifier) &&
            HasChildOffstudy(db.childOffstudies, subjectIdentifier) ==>
              r == Fail(FormError(AlreadyOffstudy))
    ensures r.Pass? <==> !OffstudyBlocked(db, subjectIdentifier)
  {
    if HasPendingOffstudyAction(db.actionItems, subjectIdentifier) then
      Fail(FormError(ScheduledOffstudy))
    else if HasChildOffstudy(db.childOffstudies, subjectIdentifier) then
      Fail(FormError(AlreadyOffstudy))
    else
      Pass
  }

  /** The subject is off study or scheduled to be taken off study. */
  predicate OffstudyBlocked(db: Database, subjectIdentifier: Option<string>) {
    HasPendingOffstudyAction(db.actionItems, subjectIdentifier) ||
    HasChildOffstudy(db.childOffstudies, subjectIdentifier)
  }

  /**
   * A pending off-study action decides the outcome whatever the off-study
   * table holds.
   */
  lemma PendingActionTakesPrecedence(db: Database, subjectIdentifier: Option<string>,
                                     offstudies: seq<ChildOffstudy>)
    requires HasPendingOffstudyAction(db.actionItems, subjectIdentifier)
    ensures ValidateOffstudyModel(db.(childOffstudies := offstudies), subjectIdentifier)
            == ValidateOffstudyModel(db, subjectIdentifier)
            == Fail(FormError(ScheduledOffstudy))
  {
  }

  /** The latest caregiver consent, found under the identifier without its last three characters. */
  function LatestConsentObj(db: Database, subjectIdentifier: string): (r: Option<SubjectConsent>)
    ensures r.Some? ==> r.value in db.subjectConsents &&
                        r.value.subjectIdentifier == DropLastThree(subjectIdentifier) &&
                        forall c :: c in db.subjectConsents && c.subjectIdentifier == DropLastThree(subjectIdentifier) ==>
                          c.consentDatetime <= r.value.consentDatetime
    ensures r.None? <==> forall c :: c in db.subjectConsents ==> c.subjectIdentifier != DropLastThree(subjectIdentifier)
  {
    LatestConsent(db.subjectConsents, DropLastThree(subjectIdentifier))
  }

  /** A child identifier "123-10" is looked up under the caregiver identifier "123". */
  lemma ChildIdentifierExample()
    ensures DropLastThree("123-10") == "123"
    ensures DropLastThree("10") == ""
  {
  }

  /**
   * If the subject has a consent, its latest one must have a consent-version
   * record with the same screening identifier.
   */
  function ValidateConsentVersionObj(db: Database, subjectIdentifier: string): (r: Outcome)
    ensures r.Fail? <==> (exists c | c in db.subjectConsents :: c.subjectIdentifier == DropLastThree(subjectIdentifier)) &&
                         !HasConsentVersion(db.consentVersions, LatestConsentObj(db, subjectIdentifier).value.screeningIdentifier)
    ensures r.Fail? ==> r.error == FormError(MissingConsentVersion)
  {
    match LatestConsentObj(db, subjectIdentifier)
    case None => Pass
    case Some(consent) =>
      if HasConsentVersion(db.consentVersions, consent.screeningIdentifier) then Pass
      else Fail(FormError(MissingConsentVersion))
  }

  /** The subject identifier `clean` works with. */
  function EffectiveSubject(data: CleanedData): (s: Option<string>)
    ensures data.childVisit.Some? ==> s == Some(data.childVisit.value.subjectIdentifier)
    ensures data.childVisit.None? ==> s == data.subjectIdentifier
  {
    match data.childVisit
    case Some(visit) => Some(visit.subjectIdentifier)
    case None => data.subjectIdentifier
  }

  /** The outcome of `clean`: the visit-datetime check, when a visit is linked, then the off-study check. */
  function CleanOutcome(data: CleanedData, db: Database): (r: Outcome)
    ensures r.Fail? ==> r.error.kind in {BeforeVisit, ScheduledOffstudy, AlreadyOffstudy} && r.error.field.None?
    ensures r.Fail? && r.error.kind == BeforeVisit ==>
              data.childVisit.Some? && data.reportDatetime.Some? &&
              data.reportDatetime.value < data.childVisit.value.reportDatetime
  {
    var dateCheck :=
      if data.childVisit.Some? then ValidateAgainstVisitDatetime(data, data.reportDatetime) else Pass;
    if dateCheck.Fail? then dateCheck else ValidateOffstudyModel(db, EffectiveSubject(data))
  }

  /**
   * `clean` passes exactly when the report is not dated before the linked
   * visit and the subject is neither off study nor scheduled to be.
   */
  lemma CleanPassesIff(data: CleanedData, db: Database)
    ensures CleanOutcome(data, db).Pass? <==>
              (data.childVisit.Some? ==> NotBefore(data.reportDatetime, data.childVisit.value.reportDatetime)) &&
              !OffstudyBlocked(db, EffectiveSubject(data))
  {
  }

  /** A report dated before the linked visit fails on the date, whatever the subject's off-study status. */
  lemma DateErrorTakesPrecedence(data: CleanedData, db: Database)
    requires data.childVisit.Some? && data.reportDatetime.Some?
    requires data.reportDatetime.value < data.childVisit.value.reportDatetime
    ensures CleanOutcome(data, db) == Fail(FormError(BeforeVisit))
  {
  }

  /** Without a linked visit, `clean` is the off-study check on the submitted subject identifier. */
  lemma NoVisitOnlyOffstudyCheck(data: CleanedData, db: Database)
    requires data.childVisit.None?
    ensures CleanOutcome(data, db) == ValidateOffstudyModel(db, data.subjectIdentifier)
  {
  }

  /** The validator object of one form submission. */
  class ChildFormValidator {
    const cleanedData: CleanedData
    const db: Database
    var subjectIdentifier: Option<string>

    constructor (cleanedData: CleanedData, db: Database)
      ensures this.cleanedData == cleanedData && this.db == db
      ensures subjectIdentifier == None
    {
      this.cleanedData := cleanedData;
      this.db := db;
      subjectIdentifier := None;
    }

    /**
     * Sets the subject identifier from the linked visit, or else from the
     * submitted data, then runs the visit-datetime check (only when a visit
     * is linked) and the off-study check, stopping at the first failure.
     */
    method Clean() returns (outcome: Outcome)
      modifies this
      ensures subjectIdentifier == EffectiveSubject(cleanedData)
      ensures outcome == CleanOutcome(cleanedData, db)
    {
      if cleanedData.childVisit.Some? {
        subjectIdentifier := Some(cleanedData.childVisit.value.subjectIdentifier);
        outcome := ValidateAgainstVisitDatetime(cleanedData, cleanedData.reportDatetime);
        if outcome.Fail? {
          return;
        }
      } else {
        subjectIdentifier := cleanedData.subjectIdentifier;
      }
      outcome := ValidateOffstudyModel(db, subjectIdentifier);
    }
  }
}
