/** The details form (app/page.tsx): the record being typed, the errors on
    show, and the two buttons that hand a valid record on. */
module FormPage {
  import opened Strings
  import opened FormData
  import opened Validation
  import opened PdfGenerator

  /** The component's state: `formData` and `errors`. */
  class FormState {
    var data: FieldRecord
    var errors: map<FieldName, Message>

    /** No stale error is on show: every message displayed is the verdict
        the current record earns for that field. */
    ghost predicate Valid()
      reads this
    {
      Current(errors, data)
    }

    /** The form opens empty and without errors. */
    constructor ()
      ensures data == EmptyRecord && errors == map[]
      ensures Valid()
    {
      data := EmptyRecord;
      errors := map[];
    }

    /** `validateForm`: rebuilds the error map from the current record and
        reports whether it came out empty. */
    method Validate() returns (ok: bool)
      modifies this`errors
      ensures errors == ErrorsOf(data)
      ensures ok <==> errors == map[]
      ensures ok <==> !AllWhitespace(data.name) && MatchesEmailPattern(data.email)
                      && |Digits(data.phone)| >= MinPhoneDigits
      ensures Valid()
    {
      var newErrors;
      newErrors, ok := CollectErrors(data);
      errors := newErrors;
    }

    /** `handleInputChange(field, value)`: the field takes the new value and
        loses its error, if it had one; every other error stays. */
    method InputChange(f: FieldName, v: string)
      requires Valid()
      modifies this
      ensures data == old(data).With(f, v)
      ensures errors == old(errors) - {f}
      ensures Valid()
    {
      EditClearsField(errors, data, f, v);
      data := data.With(f, v);
      // Removing a key that is absent changes nothing, so the guard on
      // `errors[field]` needs no branch of its own.
      errors := errors - {f};
    }

    /** `handleViewPDF`: validates, and only a record that passes is handed
        to the preview page. */
    method ViewPdf() returns (handoff: Option<FieldRecord>)
      modifies this`errors
      ensures errors == ErrorsOf(data) && Valid()
      ensures handoff.Some? <==> errors == map[]
      ensures handoff.Some? ==> handoff.value == data
    {
      var ok := Validate();
      if ok {
        handoff := Some(data);
      } else {
        handoff := None;
      }
    }

    /** `handleDownloadPDF`: validates, and only a record that passes is
        rendered and saved. */
    method DownloadPdf(wrap: (string, nat) -> seq<string>) returns (doc: Canvas?)
      modifies this`errors
      ensures errors == ErrorsOf(data) && Valid()
      ensures doc != null <==> errors == map[]
      ensures doc != null ==>
        && fresh(doc)
        && doc.trace == Layout(data, wrap(data.description, WrapWidth))
        && doc.saved == [FileName(data.name)]
    {
      var ok := Validate();
      if ok {
        doc := GeneratePdf(data, wrap);
      } else {
        doc := null;
      }
    }
  }

  /** The body of `validateForm` before the state update: the three
      checks in order (a blank field is missing; a non-blank email must
      have the email shape as typed; a non-blank phone needs ten digits),
      the map of the failures, and whether it has no key. */
  method CollectErrors(r: FieldRecord) returns (newErrors: map<FieldName, Message>, ok: bool)
    ensures newErrors == ErrorsOf(r)
    ensures Current(newErrors, r)
    ensures ok <==> newErrors == map[]
    ensures ok <==> !AllWhitespace(r.name) && MatchesEmailPattern(r.email)
                    && |Digits(r.phone)| >= MinPhoneDigits
  {
    var name: Option<Message> := None;
    if Trim(r.name) == [] {
      name := Some(NameRequired);
    }

    var email: Option<Message> := None;
    if Trim(r.email) == [] {
      email := Some(EmailRequired);
    } else if !IsEmailShape(r.email) {
      email := Some(EmailInvalid);
    }

    var phone: Option<Message> := None;
    if Trim(r.phone) == [] {
      phone := Some(PhoneRequired);
    } else if |Digits(r.phone)| < MinPhoneDigits {
      phone := Some(PhoneTooShort);
    }

    ErrorsVerdict(r, name, email, phone);
    newErrors := Entry(Name, name) + Entry(Email, email) + Entry(Phone, phone);
    ok := |newErrors| == 0;
  }

  /** Every error in `errors` is the verdict `r` earns for that field: the
      map shows no stale error. */
  ghost predicate Current(errors: map<FieldName, Message>, r: FieldRecord) {
    forall f :: f in errors ==> f in ErrorsOf(r) && errors[f] == ErrorsOf(r)[f]
  }

  /** The map assembled from the three verdicts is the record's error map;
      it is current, and it has no key exactly when the record passes every
      check. */
  lemma ErrorsVerdict(r: FieldRecord, n: Option<Message>, e: Option<Message>, p: Option<Message>)
    requires n == NameError(r.name) && e == EmailError(r.email) && p == PhoneError(r.phone)
    ensures var m := Entry(Name, n) + Entry(Email, e) + Entry(Phone, p);
      && m == ErrorsOf(r)
      && Current(m, r)
      && (|m| == 0 <==> m == map[])
      && (|m| == 0 <==> !AllWhitespace(r.name) && MatchesEmailPattern(r.email)
                        && |Digits(r.phone)| >= MinPhoneDigits)
  {
    var m := Entry(Name, n) + Entry(Email, e) + Entry(Phone, p);
    ErrorsEmptyIff(r);
    if m != map[] {
      var f :| f in m;
      assert f in m.Keys;
    }
  }

  /** Editing a field keeps the shown errors current: with the edited
      field's entry dropped, what remains is still part of the verdicts on
      the edited record. */
  lemma EditClearsField(errors: map<FieldName, Message>, r: FieldRecord, f: FieldName, v: string)
    requires Current(errors, r)
    ensures f !in errors - {f}
    ensures Current(errors - {f}, r.With(f, v))
  {
    ErrorsLocal(r, f, v);
  }
}
