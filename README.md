# Details form and PDF generator

This project models the two working parts of a small form-to-PDF web page,
and proves properties about them.

- **The details form** (`app/page.tsx`). It holds a five-field record:
  name, email, phone, position and description. It also holds a map of
  error messages.
  - `validateForm` rebuilds the error map from scratch. A name, email or
    phone that is blank after trimming is missing. A non-blank email must
    match `^[^\s@]+@[^\s@]+\.[^\s@]+$` as typed. A non-blank phone needs at
    least ten characters `0`-`9`.
  - `handleInputChange` stores a new value in one field and clears that
    field's error.
  - The "view" and "download" buttons act only when validation passes.
- **The PDF generator** (`lib/pdf-generator.ts`). It draws the record on
  one page: a bold title, then four label/value rows at a pitch of 20
  units, then the description block 1.5 pitches lower. It saves the
  document as the name with every whitespace run replaced by `_`,
  followed by `_details.pdf`.

Modules:

- `Strings` (`strings.dfy`): the JavaScript string primitives the code
  relies on.
  - `trim` and the class `\s`. Both use the ECMAScript WhiteSpace and
    LineTerminator code points.
  - `replace(/\D/g, "")`.
  - `replace(/\s+/g, "_")`.
- `FormData` (`form_data.dfy`): the record and the `{ ...prev, [field]: value }`
  update.
- `Validation` (`validation.dfy`): the three field checks, the email
  pattern and the error map as pure functions. The pattern is a regular
  expression (`MatchesEmailPattern`). The model tests it by splitting at the
  first `@` (`IsEmailShape`); `EmailShapeMatchesPattern` proves this
  accepts exactly the strings the regular expression accepts.
- `PdfGenerator` (`pdf_generator.dfy`): the jsPDF document as a `Canvas`
  class. The canvas keeps an append-only trace of `text` calls, each with
  its lines, position, weight and size. `GeneratePdf` moves the `y` cursor
  as the source does. It is proved to draw exactly `Layout(record, wrapped
  description)` and to save under `FileName(record.name)`.
- `FormPage` (`form_page.dfy`): the page state as the class `FormState`,
  with fields `data` and `errors`. Its invariant `Valid()` says that every
  error on show is the verdict the current record earns, so no error is
  stale.

## Model

| member | source | states |
|---|---|---|
| Strings.IsWhitespace | app/page.tsx:134 | the ECMAScript WhiteSpace and LineTerminator code points that `trim` strips and `\s` matches (no `ensures`; used by the Trim and Collapse lemmas) |
| Strings.IsDigit | app/page.tsx:146 | the class `\d`, the characters `0`-`9`; `\D` is its complement (no `ensures`; characterised by DigitsCount) |
| Strings.TrimStart | app/page.tsx:134 | what is dropped is whitespace, and what is kept does not start with whitespace |
| Strings.TrimEnd | app/page.tsx:134 | what is dropped is whitespace, and what is kept does not end with whitespace |
| Strings.TrimStartSuffix | app/page.tsx:134 | what the leading trim keeps is a suffix of its input |
| Strings.TrimEndPrefix | app/page.tsx:134 | what the trailing trim keeps is a prefix of its input |
| Strings.TrimBlank | app/page.tsx:134 | trimming both ends gives the empty string exactly when the input is all whitespace |
| Strings.TrimInfix | app/page.tsx:134 | `trim()` is an infix of the string with only whitespace before and after it |
| Strings.Trim | app/page.tsx:134 | `trim()` is empty exactly when the string is all whitespace; a non-empty result starts and ends with a non-whitespace character |
| Strings.Digits | app/page.tsx:146 | `replace(/\D/g, "")` keeps only characters `0`-`9` and never lengthens the string |
| Strings.DigitsAppend | app/page.tsx:146 | the digits of a concatenation are the digits of each part, in order |
| Strings.DigitsCount | app/page.tsx:146 | every digit is kept as many times as it occurs, and nothing else is kept |
| Strings.IgnoresNonDigit | app/page.tsx:146 | inserting a bracket, dash, space or other non-digit anywhere leaves the digit string unchanged |
| Strings.DigitsNotBlank | app/page.tsx:144-146 | a string with a digit is never all whitespace, so the "required" and "at least 10 digits" checks agree |
| Strings.IndexOf | app/page.tsx:140 | the first position of a character, or the length when it is absent |
| Strings.CollapseWhitespace | lib/pdf-generator.ts:58 | `replace(/\s+/g, "_")` never lengthens the string and leaves no whitespace |
| Strings.CollapseNoWhitespace | lib/pdf-generator.ts:58 | a string without whitespace is left unchanged |
| Strings.CollapseIdempotent | lib/pdf-generator.ts:58 | collapsing twice is the same as collapsing once |
| Strings.CollapsePlainPrefix | lib/pdf-generator.ts:58 | a whitespace-free prefix is copied through unchanged |
| Strings.CollapseRun | lib/pdf-generator.ts:58 | a whole maximal whitespace run becomes exactly one `_` |
| Strings.TrimStartRun | lib/pdf-generator.ts:58 | a maximal leading whitespace run is consumed entirely |
| FormData.FieldRecord.With | app/page.tsx:155 | the edited field holds the new value and every other field is unchanged |
| Validation.Message.Text | app/page.tsx:135-147 | the five message strings, word for word (no `ensures`; each message is tied to its condition by NameErrorIff, EmailErrorIff and PhoneErrorIff) |
| Validation.MatchesEmailPattern | app/page.tsx:140 | the regular expression `^[^\s@]+@[^\s@]+\.[^\s@]+$` as an existence of the `@` and `.` positions (no `ensures`; the definition the email lemmas are stated against) |
| Validation.IsEmailShape | app/page.tsx:140 | a checkable test that splits at the first `@` (no `ensures`; proved equal to the pattern by EmailShapeMatchesPattern) |
| Validation.EmailShapeMatchesPattern | app/page.tsx:140 | splitting at the first `@` accepts exactly the strings the regular expression accepts |
| Validation.EmailShapeToPattern | app/page.tsx:140 | every string that passes the split test matches the pattern |
| Validation.EmailPatternToShape | app/page.tsx:140 | every string that matches the pattern passes the split test |
| Validation.DomainShape | app/page.tsx:140 | after the `@` comes a run of address characters with a `.` that is neither first nor last |
| Validation.EmailPatternNotBlank | app/page.tsx:138-140 | a matching email is never blank, so "required" and "invalid" never both apply |
| Validation.EmailPatternOneAt | app/page.tsx:140 | a matching email has no whitespace and exactly one `@` |
| Validation.NameError | app/page.tsx:134-136 | the name's verdict (no `ensures`; characterised by NameErrorIff) |
| Validation.EmailError | app/page.tsx:138-142 | the email's verdict, with the pattern applied to the untrimmed value (no `ensures`; characterised by EmailErrorIff) |
| Validation.PhoneError | app/page.tsx:144-148 | the phone's verdict, counting the characters `0`-`9` (no `ensures`; characterised by PhoneErrorIff) |
| Validation.NameErrorIff | app/page.tsx:134-136 | the name gets "Name is required" exactly when it is blank, and no entry otherwise |
| Validation.EmailErrorIff | app/page.tsx:138-142 | the email gets "Email is required" exactly when blank; "Please enter a valid email format" exactly when not blank and the untrimmed value fails the pattern; and no entry exactly when it matches |
| Validation.PhoneErrorIff | app/page.tsx:144-148 | the phone gets "Phone number is required" exactly when blank; "must be at least 10 digits" exactly when not blank with fewer than 10 digits; and no entry exactly when it has 10 or more |
| Validation.FieldError | app/page.tsx:132-148 | the verdict on any one field, from that field alone; position and description never fail (no `ensures`; tied to the map by ErrorsOfAt) |
| Validation.ErrorsOf | app/page.tsx:132-148 | the `newErrors` map of a record (no `ensures`; characterised by ErrorsOfAt, ErrorsOfKeys and ErrorsEmptyIff) |
| Validation.EntriesAt | app/page.tsx:132-148 | in the map assembled from three verdicts, each key is present exactly when its verdict is a failure, with that message |
| Validation.ErrorsOfAt | app/page.tsx:132-148 | each field's entry in the error map is that field's own verdict |
| Validation.ErrorsOfKeys | app/page.tsx:21-25 | the error map only ever has keys name, email and phone; position and description never fail |
| Validation.EntriesKeys | app/page.tsx:132-148 | the assembled map has no keys besides name, email and phone |
| Validation.NameEntry | app/page.tsx:134-136 | the name entry is present exactly when the name is blank, and it says "Name is required" |
| Validation.EmailEntry | app/page.tsx:138-142 | the email entry is present exactly when the pattern fails; its message says whether the email is blank or malformed |
| Validation.PhoneEntry | app/page.tsx:144-148 | the phone entry is present exactly when there are fewer than ten digits; its message says whether the phone is blank or short |
| Validation.ErrorsEmptyIff | app/page.tsx:150-151 | the map is empty exactly when the name is not blank, the email matches and the phone has ten digits |
| Validation.ErrorsLocal | app/page.tsx:132-148 | changing one field changes no other field's entry |
| Validation.OptionalFieldsIgnored | app/page.tsx:132-148 | editing the position or the description never changes the error map |
| Validation.PaddedEmailRejected | app/page.tsx:138-142 | `" a@b.c "` is not blank yet is reported as malformed, because the pattern sees the spaces |
| Validation.WellFormedEmail | app/page.tsx:138-142 | `"a@b.c"` passes |
| Validation.WellFormedEmailWithLongerDomain | app/page.tsx:138-142 | `"jo@x.com"` passes |
| Validation.EmailWithoutAt | app/page.tsx:138-142 | `"not-an-email"` is reported as malformed, not as missing |
| Validation.TenDigitPhone | app/page.tsx:144-148 | `"1234567890"` passes |
| Validation.ShortPhone | app/page.tsx:144-148 | `"123"` is reported as too short |
| Validation.FormattedPhone | app/page.tsx:144-148 | `"(220) 222-2000"` passes, because brackets, spaces and dashes are ignored |
| Validation.PlainName | app/page.tsx:134-136 | `"Jo"` passes |
| Validation.BlankNameRecord | app/page.tsx:132-148 | a record with a blank name and a valid email and phone has exactly one error, "Name is required" |
| Validation.BadEmailShortPhoneRecord | app/page.tsx:132-148 | `"not-an-email"` with phone `"123"` gives exactly the email-format and too-short errors |
| Validation.CompleteRecord | app/page.tsx:132-151 | name `"Jo"`, email `"jo@x.com"` and phone `"(220) 222-2000"` give an empty error map |
| PdfGenerator.Canvas.constructor | lib/pdf-generator.ts:13 | a new document has the default font, nothing drawn and nothing saved |
| PdfGenerator.Canvas.SetFont | lib/pdf-generator.ts:15 | `setFont` changes only the weight in force |
| PdfGenerator.Canvas.SetFontSize | lib/pdf-generator.ts:16 | `setFontSize` changes only the size in force |
| PdfGenerator.Canvas.Text | lib/pdf-generator.ts:18 | `text` appends one run in the current weight and size, and changes nothing else |
| PdfGenerator.Canvas.SplitTextToSize | lib/pdf-generator.ts:55 | the wrapped lines are the backend's wrap of the text at the given width |
| PdfGenerator.Canvas.Save | lib/pdf-generator.ts:58 | `save` records the file name |
| PdfGenerator.FileName | lib/pdf-generator.ts:58 | the name ends in `_details.pdf`, and the part before it has no whitespace |
| PdfGenerator.Layout | lib/pdf-generator.ts:15-56 | the eleven `text` runs of the page in order, with lines, position, weight and size (no `ensures`; characterised by the Layout lemmas and drawn exactly by GeneratePdf) |
| PdfGenerator.DrawTitle | lib/pdf-generator.ts:15-20 | the title is drawn bold at size 20 at (20, 30); afterwards the size is 12 and the weight bold |
| PdfGenerator.DrawRow | lib/pdf-generator.ts:26-46 | one row appends its label in bold at x = 20, then its value in normal weight at x = 80, both on the cursor's line |
| PdfGenerator.DrawDescription | lib/pdf-generator.ts:49-56 | the description label is drawn bold at the cursor; the wrapped text follows 10 lower in normal weight at width 150 |
| PdfGenerator.GeneratePdf | lib/pdf-generator.ts:13-58 | the cursor-driven drawing produces exactly `Layout` of the record and its wrapped description, and saves once under `FileName(name)` |
| PdfGenerator.LayoutTitle | lib/pdf-generator.ts:15-19 | the first of the eleven runs is "Personal Details", bold, at size 20, at (20, 30) |
| PdfGenerator.LayoutRow | lib/pdf-generator.ts:22-46 | row `i` has its label bold at (20, 60 + 20i) and its value in normal weight at (80, 60 + 20i), both at size 12 |
| PdfGenerator.LayoutRowOrder | lib/pdf-generator.ts:26-46 | the rows are Name, Email, Phone Number and Position, showing the name, email, phone and position |
| PdfGenerator.LayoutDescription | lib/pdf-generator.ts:47-56 | "Description:" is bold at (20, 150); the wrapped description is in normal weight at (20, 160) |
| PdfGenerator.LayoutYs | lib/pdf-generator.ts:22-56 | each run's y is the value of the cursor when that run is drawn |
| PdfGenerator.RunYOrder | lib/pdf-generator.ts:22-51 | the cursor never moves up, and it stays put only between a row's label and its value |
| PdfGenerator.LayoutDescends | lib/pdf-generator.ts:22-51 | no run is drawn above an earlier one; two runs share a line only as a row's label and value |
| PdfGenerator.LayoutWeights | lib/pdf-generator.ts:15-56 | a run is bold exactly when it is the title or a label, i.e. drawn at x = 20 other than the description text |
| PdfGenerator.FileNameTwoWords | lib/pdf-generator.ts:58 | two words separated by any whitespace run are joined by one `_` |
| PdfGenerator.FileNameOuterRuns | lib/pdf-generator.ts:58 | leading and trailing whitespace is not trimmed; each outer run becomes its own `_` |
| PdfGenerator.FileNameInnerRun | lib/pdf-generator.ts:58 | `"John  Doe"` is saved as `John_Doe_details.pdf` |
| PdfGenerator.FileNameOuterSpaces | lib/pdf-generator.ts:58 | `" Jo "` is saved as `_Jo__details.pdf` |
| PdfGenerator.FileNameStable | lib/pdf-generator.ts:58 | a name and its collapsed form give the same file name |
| FormPage.FormState.Valid | app/page.tsx:131-159 | the class invariant: every error on show is the verdict the current record earns (no `ensures`; kept by the constructor, Validate and InputChange) |
| FormPage.FormState.constructor | app/page.tsx:69-76 | the form opens with every field empty and no errors |
| FormPage.FormState.Validate | app/page.tsx:131-152 | the stored errors become exactly the freshly built map; the result is true exactly when that map is empty, i.e. when the name is not blank, the email matches and the phone has ten digits |
| FormPage.CollectErrors | app/page.tsx:132-151 | the three checks in order build the record's error map; "no keys" holds exactly when every check passes |
| FormPage.ErrorsVerdict | app/page.tsx:132-151 | the map built from the three verdicts is the record's error map and shows no stale error |
| FormPage.Current | app/page.tsx:131-159 | an error map shows no stale error for a record: each of its entries is that record's entry (no `ensures`; established by ErrorsVerdict, kept by EditClearsField) |
| FormPage.FormState.InputChange | app/page.tsx:154-159 | the field takes the new value and the other fields are unchanged; that field's error is removed and the other errors stay; no error becomes stale |
| FormPage.EditClearsField | app/page.tsx:154-158 | once the edited field's error is dropped, every remaining error is still the current verdict for the edited record |
| FormPage.FormState.ViewPdf | app/page.tsx:161-166 | the form validates; the record is handed to the preview exactly when no error remains, and only the error map changes |
| FormPage.FormState.DownloadPdf | app/page.tsx:168-172 | the form validates; a document is produced exactly when no error remains, and it draws the record's layout and is saved under its file name |

## Left out

- React rendering, the animation variants, icons and styling of the page
  are user interface, not logic.
- The preview page is not part of this model. It reads browser storage,
  parses JSON and redisplays the fields. The round trip through
  `JSON.stringify` and `JSON.parse` belongs to the JSON library.
- FormPage.FormState.ViewPdf returns the record that `handleViewPDF`
  stores. `localStorage.setItem` and `router.push` are browser storage and
  navigation, and are not modelled.
- `handleInputChange` writes `undefined` into the field's error slot. The
  model removes the key instead: the page only ever tests whether a
  field's error is truthy, so the two cannot be told apart.
- `handleInputChange` clears an error only when one is present. The model
  always removes the key, which is the same result because removing an
  absent key changes nothing.
- The dynamic `import("jspdf")`, the asynchronous call, and the
  `try`/`catch` that logs and alerts on failure are host behaviour. The
  model covers only the path where generation succeeds.
- Word wrapping in `splitTextToSize` depends on font metrics. It is a
  function `wrap` given to the document, and only its width (150) and
  where its lines are drawn are modelled.
- The font family (`helvetica`) is not recorded, only weight and size.
  The first `setFont("helvetica")` names no style and is modelled as
  normal weight. The document is new, so its weight is normal anyway, and
  bold is set before the first `text` call, so no drawn run depends on
  how jsPDF treats a missing style.
- jsPDF's own handling of line breaks inside a single `text` string is
  not modelled; a value is one run.
- `doc.save` is recorded as a file name; the download itself is I/O.
- Strings are sequences of Dafny characters. JavaScript strings are UTF-16
  code units, which only matters for characters outside the Basic
  Multilingual Plane. None of those is whitespace or a digit, so no check
  changes.
