/** The checks `validateForm` applies to the record (app/page.tsx): which
    field fails, with which message. */
module Validation {
  import opened Strings
  import opened FormData

  datatype Option<+T> = None | Some(value: T)

  /** The messages the form can show next to a field. */
  datatype Message = NameRequired | EmailRequired | EmailInvalid | PhoneRequired | PhoneTooShort
  {
    /** The text shown to the user. */
    function Text(): string {
      match this
      case NameRequired => "Name is required"
      case EmailRequired => "Email is required"
      case EmailInvalid => "Please enter a valid email format"
      case PhoneRequired => "Phone number is required"
      case PhoneTooShort => "Phone number must be at least 10 digits"
    }
  }

  /** The fewest digits a phone number may have. */
  const MinPhoneDigits := 10

  /** The fields `validateForm` checks; position and description never fail. */
  const ValidatedFields: set<FieldName> := {Name, Email, Phone}

  // ---------------------------------------------------------------------
  // The email shape

  /** The class `[^\s@]`. */
  predicate IsAddressChar(c: char) {
    !IsWhitespace(c) && c != '@'
  }

  /** Every character of `s[lo..hi]` is in `[^\s@]`. */
  predicate AddressRun(s: string, lo: int, hi: int)
    requires 0 <= lo <= hi <= |s|
  {
    forall i :: lo <= i < hi ==> IsAddressChar(s[i])
  }

  /** `s` matches `^[^\s@]+@[^\s@]+\.[^\s@]+$` with the `@` at `at` and the
      `.` at `dot`: a non-empty run of address characters, `@`, a non-empty
      run, `.`, a non-empty run, and nothing else. */
  ghost predicate EmailSplit(s: string, at: int, dot: int) {
    && 0 < at && at + 1 < dot && dot + 1 < |s|
    && s[at] == '@' && s[dot] == '.'
    && AddressRun(s, 0, at) && AddressRun(s, at + 1, dot) && AddressRun(s, dot + 1, |s|)
  }

  /** The regular expression `^[^\s@]+@[^\s@]+\.[^\s@]+$`. */
  ghost predicate MatchesEmailPattern(s: string) {
    exists at: int, dot: int :: EmailSplit(s, at, dot)
  }

  /** The part after the `@`: address characters only, with a `.` that is
      neither its first nor its last character. */
  predicate IsDomainShape(d: string) {
    |d| >= 3 && AddressRun(d, 0, |d|) && IndexOf(d[1..|d| - 1], '.') < |d| - 2
  }

  /** The pattern test as the form performs it: split at the first `@`. */
  predicate IsEmailShape(s: string) {
    var at := IndexOf(s, '@');
    0 < at < |s| && AddressRun(s, 0, at) && IsDomainShape(s[at + 1..])
  }

  /** The split test and the regular expression accept the same strings. */
  lemma EmailShapeMatchesPattern(s: string)
    ensures IsEmailShape(s) <==> MatchesEmailPattern(s)
  {
    if IsEmailShape(s) {
      EmailShapeToPattern(s);
    }
    if MatchesEmailPattern(s) {
      EmailPatternToShape(s);
    }
  }

  lemma EmailShapeToPattern(s: string)
    requires IsEmailShape(s)
    ensures MatchesEmailPattern(s)
  {
    var at := IndexOf(s, '@');
    var d := s[at + 1..];
    var j := IndexOf(d[1..|d| - 1], '.');
    var dot := at + 2 + j;
    assert s[dot] == d[1..|d| - 1][j] == '.';
    assert forall i :: at + 1 <= i < |s| ==> s[i] == d[i - at - 1];
    assert EmailSplit(s, at, dot);
  }

  lemma EmailPatternToShape(s: string)
    requires MatchesEmailPattern(s)
    ensures IsEmailShape(s)
  {
    var at: int, dot: int :| EmailSplit(s, at, dot);
    assert IndexOf(s, '@') == at;
    DomainShape(s, at, dot);
  }

  /** Everything after the `@` of a split is a domain. */
  lemma DomainShape(s: string, at: int, dot: int)
    requires EmailSplit(s, at, dot)
    ensures IsDomainShape(s[at + 1..])
  {
    var d := s[at + 1..];
    forall k | 0 <= k < |d|
      ensures IsAddressChar(d[k])
    {
      assert d[k] == s[at + 1 + k];
    }
    var inner := d[1..|d| - 1];
    assert inner[dot - at - 2] == '.';
    assert IndexOf(inner, '.') <= dot - at - 2;
  }

  /** A string of the email shape is not blank. */
  lemma EmailPatternNotBlank(s: string)
    ensures MatchesEmailPattern(s) ==> !AllWhitespace(s)
  {
    if MatchesEmailPattern(s) {
      EmailShapeMatchesPattern(s);
      assert IsAddressChar(s[0]);
    }
  }

  /** An address of the email shape has no whitespace and exactly one `@`. */
  lemma EmailPatternOneAt(s: string)
    requires MatchesEmailPattern(s)
    ensures NoWhitespace(s)
    ensures '@' in s
    ensures forall i, j :: 0 <= i < j < |s| && s[i] == '@' ==> s[j] != '@'
  {
    EmailShapeMatchesPattern(s);
    var at := IndexOf(s, '@');
    var d := s[at + 1..];
    assert forall k :: at < k < |s| ==> s[k] == d[k - at - 1];
  }

  // ---------------------------------------------------------------------
  // The per-field checks

  /** `validateForm` on the name: a blank name is missing. */
  function NameError(name: string): Option<Message> {
    if Trim(name) == [] then Some(NameRequired) else None
  }

  /** `validateForm` on the email: a blank one is missing, otherwise the
      untrimmed value must have the email shape. */
  function EmailError(email: string): Option<Message> {
    if Trim(email) == [] then Some(EmailRequired)
    else if !IsEmailShape(email) then Some(EmailInvalid)
    else None
  }

  /** `validateForm` on the phone: a blank one is missing, otherwise its
      digits are counted. */
  function PhoneError(phone: string): Option<Message> {
    if Trim(phone) == [] then Some(PhoneRequired)
    else if |Digits(phone)| < MinPhoneDigits then Some(PhoneTooShort)
    else None
  }

  /** The name fails exactly when it is blank. */
  lemma NameErrorIff(name: string)
    ensures NameError(name) == Some(NameRequired) <==> AllWhitespace(name)
    ensures NameError(name) == None <==> !AllWhitespace(name)
  {
  }

  /** The email is missing exactly when blank, malformed exactly when it is
      not blank yet does not match the pattern as typed (surrounding
      whitespace included), and passes exactly when it matches. */
  lemma EmailErrorIff(email: string)
    ensures EmailError(email) == Some(EmailRequired) <==> AllWhitespace(email)
    ensures EmailError(email) == Some(EmailInvalid) <==>
      !AllWhitespace(email) && !MatchesEmailPattern(email)
    ensures EmailError(email) == None <==> MatchesEmailPattern(email)
  {
    EmailShapeMatchesPattern(email);
    EmailPatternNotBlank(email);
  }

  /** The phone is missing exactly when blank, too short exactly when it is
      not blank yet has fewer than ten digits wherever they stand, and
      passes exactly when it has ten. */
  lemma PhoneErrorIff(phone: string)
    ensures PhoneError(phone) == Some(PhoneRequired) <==> AllWhitespace(phone)
    ensures PhoneError(phone) == Some(PhoneTooShort) <==>
      !AllWhitespace(phone) && |Digits(phone)| < MinPhoneDigits
    ensures PhoneError(phone) == None <==> |Digits(phone)| >= MinPhoneDigits
  {
    DigitsNotBlank(phone);
  }

  /** The verdict on one field, from that field's value alone. */
  function FieldError(r: FieldRecord, f: FieldName): Option<Message> {
    match f
    case Name => NameError(r.name)
    case Email => EmailError(r.email)
    case Phone => PhoneError(r.phone)
    case Position => None
    case Description => None
  }

  /** The entry a verdict contributes to the error map. */
  function Entry(f: FieldName, e: Option<Message>): map<FieldName, Message> {
    if e.Some? then map[f := e.value] else map[]
  }

  /** The error map of a record: one entry per failing field. */
  function ErrorsOf(r: FieldRecord): map<FieldName, Message> {
    Entry(Name, NameError(r.name)) + Entry(Email, EmailError(r.email)) + Entry(Phone, PhoneError(r.phone))
  }

  // ---------------------------------------------------------------------
  // Properties of the error map

  lemma EntriesAt(n: Option<Message>, e: Option<Message>, p: Option<Message>, f: FieldName)
    ensures var m := Entry(Name, n) + Entry(Email, e) + Entry(Phone, p);
      var v := match f case Name => n case Email => e case Phone => p case _ => None;
      (f in m <==> v.Some?) && (f in m ==> m[f] == v.value)
  {
  }

  /** Each field's entry is that field's verdict. */
  lemma ErrorsOfAt(r: FieldRecord, f: FieldName)
    ensures f in ErrorsOf(r) <==> FieldError(r, f).Some?
    ensures f in ErrorsOf(r) ==> ErrorsOf(r)[f] == FieldError(r, f).value
  {
    EntriesAt(NameError(r.name), EmailError(r.email), PhoneError(r.phone), f);
  }

  /** Only name, email and phone ever carry an error. */
  lemma ErrorsOfKeys(r: FieldRecord)
    ensures ErrorsOf(r).Keys <= ValidatedFields
    ensures Position !in ErrorsOf(r) && Description !in ErrorsOf(r)
  {
    EntriesKeys(NameError(r.name), EmailError(r.email), PhoneError(r.phone));
  }

  lemma EntriesKeys(n: Option<Message>, e: Option<Message>, p: Option<Message>)
    ensures var m := Entry(Name, n) + Entry(Email, e) + Entry(Phone, p);
      m.Keys <= ValidatedFields && Position !in m && Description !in m
  {
  }

  /** The name entry: present exactly when the name is blank. */
  lemma NameEntry(r: FieldRecord)
    ensures Name in ErrorsOf(r) <==> AllWhitespace(r.name)
    ensures Name in ErrorsOf(r) ==> ErrorsOf(r)[Name] == NameRequired
  {
    NameErrorIff(r.name);
    ErrorsOfAt(r, Name);
  }

  /** The email entry: present exactly when the email lacks the shape, with
      the message saying whether it is blank or malformed. */
  lemma EmailEntry(r: FieldRecord)
    ensures Email in ErrorsOf(r) <==> !MatchesEmailPattern(r.email)
    ensures Email in ErrorsOf(r) ==>
      ErrorsOf(r)[Email] == if AllWhitespace(r.email) then EmailRequired else EmailInvalid
  {
    EmailErrorIff(r.email);
    ErrorsOfAt(r, Email);
  }

  /** The phone entry: present exactly when there are fewer than ten
      digits, with the message saying whether it is blank or short. */
  lemma PhoneEntry(r: FieldRecord)
    ensures Phone in ErrorsOf(r) <==> |Digits(r.phone)| < MinPhoneDigits
    ensures Phone in ErrorsOf(r) ==>
      ErrorsOf(r)[Phone] == if AllWhitespace(r.phone) then PhoneRequired else PhoneTooShort
  {
    PhoneErrorIff(r.phone);
    ErrorsOfAt(r, Phone);
  }

  /** The record passes exactly when the name is not blank, the email has
      the shape and the phone has ten digits. */
  lemma ErrorsEmptyIff(r: FieldRecord)
    ensures ErrorsOf(r) == map[] <==>
      !AllWhitespace(r.name) && MatchesEmailPattern(r.email) && |Digits(r.phone)| >= MinPhoneDigits
  {
    NameEntry(r);
    EmailEntry(r);
    PhoneEntry(r);
    if !AllWhitespace(r.name) && MatchesEmailPattern(r.email) && |Digits(r.phone)| >= MinPhoneDigits {
      assert ErrorsOf(r).Keys == {};
    }
  }

  /** Changing one field changes no other field's entry. */
  lemma ErrorsLocal(r: FieldRecord, f: FieldName, v: string)
    ensures forall g :: g != f ==>
      (g in ErrorsOf(r.With(f, v)) <==> g in ErrorsOf(r)) &&
      (g in ErrorsOf(r) ==> ErrorsOf(r.With(f, v))[g] == ErrorsOf(r)[g])
  {
    var r' := r.With(f, v);
    forall g | g != f
      ensures (g in ErrorsOf(r') <==> g in ErrorsOf(r))
      ensures g in ErrorsOf(r) ==> ErrorsOf(r')[g] == ErrorsOf(r)[g]
    {
      ErrorsOfAt(r, g);
      ErrorsOfAt(r', g);
      assert r'.Get(g) == r.Get(g);
      assert FieldError(r', g) == FieldError(r, g);
    }
  }

  /** Position and description never influence the error map. */
  lemma OptionalFieldsIgnored(r: FieldRecord, v: string)
    ensures ErrorsOf(r.With(Position, v)) == ErrorsOf(r)
    ensures ErrorsOf(r.With(Description, v)) == ErrorsOf(r)
  {
    assert r.With(Position, v) == r.(position := v);
    assert r.With(Description, v) == r.(description := v);
  }

  // ---------------------------------------------------------------------
  // Worked examples

  /** An email with surrounding spaces is not blank, yet fails the shape,
      because the shape is tested on the untrimmed value. */
  lemma PaddedEmailRejected()
    ensures !AllWhitespace(" a@b.c ")
    ensures EmailError(" a@b.c ") == Some(EmailInvalid)
  {
    var s := " a@b.c ";
    assert !IsWhitespace(s[1]);
    assert s[2] == '@' && s[0] != '@' && s[1] != '@';
    assert IndexOf(s, '@') == 2;
    assert !IsAddressChar(s[0]);
    EmailShapeMatchesPattern(s);
    EmailErrorIff(s);
  }

  lemma WellFormedEmail()
    ensures EmailError("a@b.c") == None
  {
    var s := "a@b.c";
    assert s[1] == '@' && s[0] != '@';
    assert IndexOf(s, '@') == 1;
    var d := s[2..];
    assert d[1..|d| - 1] == ".";
    assert IsEmailShape(s);
    EmailShapeMatchesPattern(s);
    EmailErrorIff(s);
  }

  lemma WellFormedEmailWithLongerDomain()
    ensures EmailError("jo@x.com") == None
  {
    var s := "jo@x.com";
    assert s[2] == '@' && s[0] != '@' && s[1] != '@';
    assert IndexOf(s, '@') == 2;
    var d := s[3..];
    assert d[1..|d| - 1][0] == '.';
    assert IsEmailShape(s);
    EmailShapeMatchesPattern(s);
    EmailErrorIff(s);
  }

  /** An address without `@` is reported as malformed, not as missing. */
  lemma EmailWithoutAt()
    ensures EmailError("not-an-email") == Some(EmailInvalid)
  {
    var email := "not-an-email";
    assert !AllWhitespace(email) by {
      assert !IsWhitespace(email[0]);
    }
    assert '@' !in email;
    EmailShapeMatchesPattern(email);
    EmailErrorIff(email);
  }

  lemma TenDigitPhone()
    ensures PhoneError("1234567890") == None
  {
    assert |Digits("1234567890")| == 10;
    PhoneErrorIff("1234567890");
  }

  lemma ShortPhone()
    ensures PhoneError("123") == Some(PhoneTooShort)
  {
    assert !AllWhitespace("123") by {
      assert !IsWhitespace("123"[0]);
    }
    assert |Digits("123")| == 3;
    PhoneErrorIff("123");
  }

  /** Brackets, spaces and dashes are ignored: the ten digits of the
      formatted number suffice. */
  lemma FormattedPhone()
    ensures PhoneError("(220) 222-2000") == None
  {
    DigitsAppend("(220) ", "222-2000");
    assert "(220) " + "222-2000" == "(220) 222-2000";
    assert |Digits("(220) ")| == 3;
    assert |Digits("222-2000")| == 7;
    PhoneErrorIff("(220) 222-2000");
  }

  lemma PlainName()
    ensures NameError("Jo") == None
  {
    assert !IsWhitespace("Jo"[0]);
    NameErrorIff("Jo");
  }

  // ---------------------------------------------------------------------
  // Whole-record examples

  /** The assembled map written out for the verdict patterns used below. */
  lemma EntriesOnly(n: Option<Message>, e: Option<Message>, p: Option<Message>)
    ensures n.Some? && e.None? && p.None? ==>
      Entry(Name, n) + Entry(Email, e) + Entry(Phone, p) == map[Name := n.value]
    ensures n.None? && e.Some? && p.Some? ==>
      Entry(Name, n) + Entry(Email, e) + Entry(Phone, p) == map[Email := e.value, Phone := p.value]
  {
  }

  /** A blank name is the only failure of an otherwise complete record. */
  lemma BlankNameRecord()
    ensures ErrorsOf(FieldRecord("", "a@b.c", "1234567890", "", "")) == map[Name := NameRequired]
  {
    var r := FieldRecord("", "a@b.c", "1234567890", "", "");
    assert NameError(r.name) == Some(NameRequired);
    assert EmailError(r.email) == None by { WellFormedEmail(); }
    assert PhoneError(r.phone) == None by { TenDigitPhone(); }
    EntriesOnly(Some(NameRequired), None, None);
  }

  /** A malformed email and a short phone are both reported, each with its
      own message. */
  lemma BadEmailShortPhoneRecord()
    ensures ErrorsOf(FieldRecord("Jo", "not-an-email", "123", "", ""))
      == map[Email := EmailInvalid, Phone := PhoneTooShort]
  {
    var r := FieldRecord("Jo", "not-an-email", "123", "", "");
    assert NameError(r.name) == None by { PlainName(); }
    assert EmailError(r.email) == Some(EmailInvalid) by { EmailWithoutAt(); }
    assert PhoneError(r.phone) == Some(PhoneTooShort) by { ShortPhone(); }
    EntriesOnly(None, Some(EmailInvalid), Some(PhoneTooShort));
  }

  /** A record with a formatted ten-digit phone passes, so the form may
      hand it on. */
  lemma CompleteRecord()
    ensures ErrorsOf(FieldRecord("Jo", "jo@x.com", "(220) 222-2000", "", "")) == map[]
  {
    var r := FieldRecord("Jo", "jo@x.com", "(220) 222-2000", "", "");
    assert NameError(r.name) == None by { PlainName(); }
    assert EmailError(r.email) == None by { WellFormedEmailWithLongerDomain(); }
    assert PhoneError(r.phone) == None by { FormattedPhone(); }
  }
}
