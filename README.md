# Child form validator mixin, modelled in Dafny

This project models `ChildFormValidatorMixin` of the FLOURISH child
validations package. The mixin guards data-capture forms of a clinical trial.
It rejects a report dated before the linked visit or before the infant's
birth record. It rejects an off-study date before the day of the visit. It
blocks new data for a child who is off study or scheduled to go off study.
It also requires a consent-version record for the latest caregiver consent,
found under the child's identifier without its last three characters.

The model has two modules:

- `Records` (`records.dfy`) holds the records the mixin reads. The database
  is an explicit value with one sequence of rows per table: infant births,
  subject consents, consent versions, child off-study records and action
  items. It also holds the lookups made on them. Datetimes are integer
  timestamps. `DayOf` plays the part of `datetime.date()`.
- `FormValidator` (`form_validator_mixin.dfy`) holds the guards. Each guard
  is a function that passes or fails with a `ValidationError`. The error
  carries a kind (`MissingBirthForm`, `BeforeEnrolment`, `BeforeVisit`,
  `OffstudyDate`, `ScheduledOffstudy`, `AlreadyOffstudy`,
  `MissingConsentVersion`) and an optional field name. `clean` is the
  method `Clean` of class `ChildFormValidator`. It assigns the object's
  `subjectIdentifier` field and then runs the guards in order. It is proved
  against the function `CleanOutcome`, and the lemmas about `CleanOutcome`
  state what `clean` guarantees.

Python's truthiness is modelled with `Option`. A datetime, a date or a
model instance is always true and `None` is false. A lookup whose subject
identifier is `None` matches no row: the ORM turns it into an IS NULL test,
and every row has an identifier.

## Model

| member | source | states |
|---|---|---|
| `FormValidator.ChildFormValidator.Clean` | flourish_child_validations/form_validators/form_validator_mixin.py:34-43 | the subject identifier becomes the linked visit's, or else the submitted one; the outcome is the visit-datetime check (only with a visit), then the off-study check, stopping at the first failure |
| `FormValidator.EffectiveSubject` | flourish_child_validations/form_validators/form_validator_mixin.py:35-41 | the identifier `clean` uses is the visit's subject identifier when a visit is linked, and the submitted `subject_identifier` otherwise |
| `FormValidator.CleanPassesIff` | flourish_child_validations/form_validators/form_validator_mixin.py:34-43 | `clean` passes exactly when the report is not before the linked visit (if any) and the subject is neither off study nor scheduled to go off study |
| `FormValidator.DateErrorTakesPrecedence` | flourish_child_validations/form_validators/form_validator_mixin.py:34-43 | with a visit linked and a report dated before it, `clean` fails with the visit-datetime error whatever the off-study state |
| `FormValidator.NoVisitOnlyOffstudyCheck` | flourish_child_validations/form_validators/form_validator_mixin.py:40-43 | without a linked visit, `clean` runs no datetime check and its outcome is the off-study check on the submitted identifier |
| `FormValidator.ValidateAgainstBirthDate` | flourish_child_validations/form_validators/form_validator_mixin.py:46-61 | fails with MissingBirthForm exactly when the infant has no birth record; on success returns a birth record of that infant not after the report; BeforeEnrolment only when a report datetime is given and earlier than a matching record's; passes whenever a record exists and the report is not before any matching record |
| `FormValidator.BirthDateCheckMonotone` | flourish_child_validations/form_validators/form_validator_mixin.py:57-61 | if the check passes for a report datetime, it passes for any later one and for none, returning the same birth record |
| `FormValidator.ValidateAgainstVisitDatetime` | flourish_child_validations/form_validators/form_validator_mixin.py:63-67 | fails, with BeforeVisit, exactly when a report datetime is given and is strictly before the visit's; equal, later or absent passes |
| `FormValidator.ValidateAgainstVisitDate` | flourish_child_validations/form_validators/form_validator_mixin.py:69-75 | fails exactly when an off-study date is given and is strictly before the day of the visit datetime; the error is keyed to the field `offstudy_date` |
| `FormValidator.VisitDatetimeOkGivesVisitDateOk` | flourish_child_validations/form_validators/form_validator_mixin.py:63-75 | a datetime that passes the visit-datetime check has a day that passes the visit-date check |
| `FormValidator.ValidateOffstudyModel` | flourish_child_validations/form_validators/form_validator_mixin.py:77-101 | a pending NEW child off-study action item gives ScheduledOffstudy; otherwise an off-study record gives AlreadyOffstudy; it passes exactly when the subject has neither |
| `FormValidator.PendingActionTakesPrecedence` | flourish_child_validations/form_validators/form_validator_mixin.py:83-101 | with a pending off-study action, the outcome is ScheduledOffstudy whatever the off-study table holds |
| `FormValidator.LatestConsentObj` | flourish_child_validations/form_validators/form_validator_mixin.py:116-122 | returns a consent of the identifier without its last three characters with the greatest consent datetime among them, or nothing exactly when there is none |
| `FormValidator.ChildIdentifierExample` | flourish_child_validations/form_validators/form_validator_mixin.py:119 | "123-10" is looked up as "123"; an identifier shorter than three characters becomes empty |
| `FormValidator.ValidateConsentVersionObj` | flourish_child_validations/form_validators/form_validator_mixin.py:103-114 | fails, with MissingConsentVersion, exactly when the subject has a consent and no consent-version record has the latest consent's screening identifier |
| `Records.LatestConsent` | flourish_child_validations/form_validators/form_validator_mixin.py:118-122 | the result is a row of the given subject with a consent datetime no smaller than any other of that subject's rows; nothing exactly when the subject has no row |
| `Records.LatestConsentDatetimeDetermined` | flourish_child_validations/form_validators/form_validator_mixin.py:122 | two tables holding the same rows in any order agree on whether a latest consent exists and on its consent datetime |
| `Records.DropLastThree` | flourish_child_validations/form_validators/form_validator_mixin.py:119 | the result is a prefix of the identifier, three characters shorter, or empty when the identifier has fewer than three |
| `Records.FindInfantBirth` | flourish_child_validations/form_validators/form_validator_mixin.py:50-52 | returns a birth row of the given infant, or nothing exactly when no row matches |
| `Records.KeyMatches` | flourish_child_validations/form_validators/form_validator_mixin.py:50-51 | a lookup key of None (Python's `None`, an IS NULL test in the ORM) matches no row; a present key matches exactly the rows with that identifier |
| `Records.HasPendingOffstudyAction` | flourish_child_validations/form_validators/form_validator_mixin.py:84-87 | true exactly when the action-item table has a row of the subject whose action type is the child off-study action and whose status is NEW |
| `Records.HasChildOffstudy` | flourish_child_validations/form_validators/form_validator_mixin.py:90-91 | true exactly when the off-study table has a row of the subject |
| `Records.HasConsentVersion` | flourish_child_validations/form_validators/form_validator_mixin.py:109-110 | true exactly when the consent-version table has a row with the given screening identifier |
| `FormValidator.CleanOutcome` | flourish_child_validations/form_validators/form_validator_mixin.py:34-43 | `clean` fails only with the visit-datetime, scheduled-off-study or already-off-study error, none keyed to a field; the visit-datetime error only when a visit is linked and a report datetime before it is given |
| `Records.DayOf` | flourish_child_validations/form_validators/form_validator_mixin.py:71 | the day is the one whose span of seconds contains the timestamp |
| `Records.DayOfMonotone` | flourish_child_validations/form_validators/form_validator_mixin.py:71 | taking the date part never reverses the order of two timestamps |

## Left out

- Model classes are not resolved through Django's app registry (lines 12-32). The tables are fields of the `Database` value.
- The `site_action_items` registry and `action_item_model_cls()` (lines 79-81) are not modelled. The action-item table is a field of `Database`.
- `super().clean()` (line 44) and the rest of the host form's cleaning pipeline are not part of this model.
- `Records.FindInfantBirth`: Django's `.get` raises `MultipleObjectsReturned` when two rows match. The model returns the first matching row instead, so that error is not modelled. The off-study, action-item and consent-version lookups (`Records.HasChildOffstudy`, `Records.HasPendingOffstudyAction`, `Records.HasConsentVersion`) are modelled as "a matching row exists" for the same reason.
- `Records.LatestConsent`: `.latest()` breaks ties in consent datetime in no defined order. The model keeps the first such row, and its contract only promises a row with the greatest datetime.
- Time zones are not modelled. Datetimes are seconds in one fixed zone, and `DayOf` is floor division by 86400.
- The exact wording of the error messages is not modelled. Errors are an enumeration of kinds, plus the field name where `validate_against_visit_date` keys one.
- `ChildOffstudyAction` and `New` stand for constants defined in the flourish_prn and edc_constants packages, which are not part of this model. Only their equality tests matter to the properties.
- `FormValidator.ValidateAgainstVisitDatetime` and `FormValidator.ValidateAgainstVisitDate` require a linked visit whenever a value is given. Without one, `validate_against_visit_datetime` and `validate_against_visit_date` fail with an attribute error, not a validation error, and the model does not cover that crash.
- `validate_consent_version_obj` and `latest_consent_obj` raise a type error when the identifier is `None`. The model takes a string, so that crash is not covered.
