# Validation rules of the showcase forms, in Dafny

This project models the validation rules that `src/lib/schemas.js` declares
for the application's forms: login, registration, password and username
updates, profile updates, and project creation and update. It proves what
each rule accepts. It covers four pieces.

- **Character and length rules.** The three regular-expression literals are
  the password strength pattern, the name pattern `[a-zA-z\s]` and the
  username pattern `[a-zA-Z0-9]`. Each is written in a small abstract syntax
  for ECMAScript regular expressions (section 22.2 of ECMA-262). `\s` is the
  WhiteSpace and LineTerminator sets of sections 12.2 and 12.3. The meaning of
  `RegExp.prototype.test` is given as a match relation. Each pattern is proved
  equivalent to a plain description of the strings it accepts. `.min` and
  `.max` count UTF-16 code units, as JavaScript's `length` does.
- **String checks.** A string field carries an ordered list of checks. Every
  check is evaluated. Each failing check raises one issue: the field's path
  and the check's message.
- **The two hand-written refinements.** One is the password/confirmation
  comparison. The other is the size and media-type check on an optional
  uploaded image, which is a project thumbnail or a profile avatar.
- **The schemas as data.** A schema is an ordered list of field descriptors
  plus an object-level refinement. The update-project schema is built, as in
  the source, by omitting `user` from the create-project schema.

Modules, in dependency order:

- `JsText`: string length in UTF-16 code units, and the JavaScript character classes.
- `RegExp`: the regular-expression fragment and its match relation.
- `Patterns`: the three literals and their meaning.
- `Options`: an option type.
- `Checks`: string checks and their issues.
- `Refinements`: the password-match and image refinements.
- `Schemas`: field descriptors, `Lookup`, `Omit`, and the eight schemas.
- `SchemaProperties`: what each schema's fields accept.

Where the source and a plain reading of the forms disagree, the model follows
the source:

- The login password, the old password and the project's `user` carry no check
  beyond being a string. The empty string is therefore accepted for them
  (`SchemaProperties.UncheckedFieldsAcceptAnything`).
- The name rule is not "letters and spaces only". The range `A-z` also admits
  six punctuation characters.
- The length checks are applied to the value as given. `.trim()` is not part of
  this model (see "Left out").

## Model

| member | source | states |
|---|---|---|
| JsText.Utf16Length | src/lib/schemas.js:54-55 | The length seen by `.min`/`.max` lies between the number of characters and twice that. It equals the number of characters when every character is in the Basic Multilingual Plane, and twice that when none is. |
| JsText.Utf16LengthOfChar | src/lib/schemas.js:14-15 | A character in the Basic Multilingual Plane counts one code unit, and any other character counts two. |
| JsText.Utf16LengthAppend | src/lib/schemas.js:99-100 | The length of a concatenation is the sum of the lengths. With `Utf16LengthOfChar`, this fixes the length of every string. |
| Patterns.PasswordClasses | src/lib/schemas.js:22 | `[A-Za-z]`, `\d`, `[@$!%*#?&]` and `[A-Za-z\d@$!%*#?&]` hold exactly the ASCII letters, the ASCII digits, the eight symbols, and their union. None of them holds a line terminator. |
| Patterns.PasswordPatternMeaning | src/lib/schemas.js:20-25 | `test` succeeds exactly on strong passwords. A strong password has at least 8 characters, all of them letters, digits or `@$!%*#?&`. It has at least one letter, one digit and one symbol. |
| Patterns.PasswordIgnoresLetterCase | src/lib/schemas.js:108 | Lower-casing every ASCII letter never changes the pattern's verdict, so no upper-case letter is ever required. |
| Patterns.PasswordExamples | src/lib/schemas.js:22 | `"abc12345"` (no symbol) and `"Ab1!"` (too short) are rejected. `"Abc123!@"` and the all-lower-case `"abc123!@"` are accepted. |
| Patterns.NameClassMeaning | src/lib/schemas.js:13 | `[a-zA-z\s]` holds exactly the ASCII letters, the `\s` characters and the six characters `[ \ ] ^ _` and backquote. The punctuation it admits is exactly those six. |
| Patterns.NamePatternMeaning | src/lib/schemas.js:130 | `test` succeeds exactly when every character is a name character. The empty string is included. |
| Patterns.NamePatternExamples | src/lib/schemas.js:13 | `"John  Doe"`, `"John_Doe"` and a string of the range's punctuation pass the character rule. `"John3"` and `"O'Brien"` fail it. |
| Patterns.UsernamePatternMeaning | src/lib/schemas.js:101 | `test` succeeds exactly when every character is an ASCII letter or digit. |
| Checks.TextIssues | src/lib/schemas.js:96-102 | A field raises no more issues than it has checks. It raises none exactly when no check fails. |
| Checks.TextIssuesSingle | src/lib/schemas.js:99-101 | One check raises exactly one issue, its own message at the field's path, when it fails, and nothing otherwise. A check fails as `Checks.Fails` says: `.min(n)` when the length is below `n`, `.max(n)` when it is above `n`, as at :14-15 and :99-100, and `.regex` when `test` fails, as at :101. |
| Checks.TextIssuesAppend | src/lib/schemas.js:97-101 | The issues of a list of checks are those of its first part followed by those of the rest. With `TextIssuesSingle`, this fixes the number and the declaration order of the issues. |
| Checks.TextIssuesOfThree | src/lib/schemas.js:12-15 | The issues of three checks are those of each check in turn. |
| Checks.TextIssuesMeaning | src/lib/schemas.js:52-56 | Every issue is at the field's path. Every failing check's message is reported. Every reported message belongs to a failing check. |
| Refinements.PasswordMatchIssues | src/lib/schemas.js:26-39 | There are no issues exactly when the two values are equal. Otherwise there are exactly two, both carrying the match message: `password` first, then `passwordConfirm`. |
| Refinements.PasswordMatchSymmetric | src/lib/schemas.js:112-125 | The refinement gives the same result when password and confirmation are swapped. |
| Refinements.PasswordMismatchPaths | src/lib/schemas.js:27-38 | On a mismatch every issue carries the match message, and each of the two paths gets exactly one issue. |
| Refinements.ImageIssues | src/lib/schemas.js:68-84 | No image raises nothing. Otherwise there is one issue if the size exceeds 5242880 bytes, plus one if the type is not in the list, so at most two. All are at the field's path. The size issue comes first and the type issue last. |
| Refinements.ImageChecksIndependent | src/lib/schemas.js:134-150 | An image's issues are the ones its size raises followed by the ones its type raises. Neither check depends on the other. |
| Refinements.ImageExamples | src/lib/schemas.js:42-49 | Exactly 5242880 bytes is accepted and one more byte is not. `"image/JPEG"` and `"application/pdf"` are rejected by type. Both checks can fire together. |
| Schemas.Omit | src/lib/schemas.js:88 | The omitted shape is no longer than the original. It holds exactly the original fields whose names are not masked. Their order is fixed by `Schemas.OmitAppend` and `Schemas.OmitNothing`. |
| Schemas.OmitAppend | src/lib/schemas.js:88 | Omitting from a concatenation is omitting from each part, in order. |
| Schemas.OmitNothing | src/lib/schemas.js:88 | Omitting from a shape that has no masked name leaves the shape unchanged. |
| Schemas.OmitLookup | src/lib/schemas.js:88 | After omitting, a masked name has no field. Every other name has the same rule as before. |
| Schemas.OmitUnique | src/lib/schemas.js:88 | Omitting fields keeps field names distinct. |
| SchemaProperties.ProjectFieldsLackUser | src/lib/schemas.js:51-86 | The create-project fields are name, tagline, url, description and thumbnail, followed by `user`. No earlier field is called `user`. |
| SchemaProperties.OmitUserField | src/lib/schemas.js:88 | Omitting `user` from the create-project fields leaves the other five, in order. |
| SchemaProperties.UpdateProjectShape | src/lib/schemas.js:88 | The update-project fields are exactly the create-project fields without `user`, in the same order. |
| SchemaProperties.UpdateProjectLookups | src/lib/schemas.js:51-88 | `user` is an unchecked string in the create schema and absent from the update schema. Every other field has the same rule in both. |
| Schemas.Lookup | src/lib/schemas.js:51-86 | A field's rule is found exactly when the shape has a field of that name. `Schemas.LookupAt` adds that the rule found is the one of the first such field. |
| Schemas.LookupAt | src/lib/schemas.js:51-86 | The rule found under a name is the rule of the first field that has that name. |
| Schemas.TextFieldIssues | src/lib/schemas.js:11-16 | A string field exists exactly when the shape has a string rule under that name. All its issues are at the field's own path. |
| Schemas.ImageFieldIssues | src/lib/schemas.js:68-84 | An image field exists exactly when the shape has an image rule under that name. It raises at most two issues, all at the field's own path. |
| Schemas.RefinementIssues | src/lib/schemas.js:26-39 | An object-level refinement raises nothing exactly when the schema has none or the password equals its confirmation. |
| SchemaProperties.ImageFieldIssuesAtPath | src/lib/schemas.js:68-84 | The thumbnail of both project schemas and the avatar raise exactly the image refinement's issues, at `["thumbnail"]` or `["avatar"]`, with their own size messages. |
| SchemaProperties.SchemaRefinements | src/lib/schemas.js:112-125 | Registration and the password update carry the password-match refinement, and their refinement issues are exactly its issues. The other six schemas have none. |
| SchemaProperties.ImageFieldRules | src/lib/schemas.js:68-88 | The thumbnail keeps its image rule and size message in both project schemas. The profile avatar is an image with its own size message. |
| SchemaProperties.ProjectFieldNamesUnique | src/lib/schemas.js:51-88 | Both project schemas have distinct field names. |
| SchemaProperties.SchemaFieldNamesUnique | src/lib/schemas.js:3-151 | The other six schemas have distinct field names. |
| SchemaProperties.PersonNameRule | src/lib/schemas.js:10-16 | Registration and the profile update share the name rule. The character message appears exactly when a character is outside the class. The minimum message appears exactly below 2 code units, and the maximum message exactly above 64. The name is accepted exactly when it has name characters only and 2 to 64 code units. |
| SchemaProperties.PersonNameIssues | src/lib/schemas.js:13-15 | The name's issues are exactly the character issue, then the minimum issue, then the maximum issue, each present exactly when its check fails. |
| SchemaProperties.ProjectTextLookups | src/lib/schemas.js:51-67 | The name, tagline and description keep their checks in both the create and the update project schemas. |
| SchemaProperties.ProjectTextBounds | src/lib/schemas.js:51-67 | The project name and tagline are accepted exactly at 1 to 64 code units. The description is accepted exactly at 1 to 512. |
| SchemaProperties.TaglineCountsCodeUnits | src/lib/schemas.js:57-60 | A tagline of 33 characters outside the Basic Multilingual Plane is 66 code units long and is rejected. |
| SchemaProperties.UsernameRule | src/lib/schemas.js:96-102 | A username is accepted exactly when it has 3 to 24 characters, all ASCII letters or digits. |
| SchemaProperties.UsernameExamples | src/lib/schemas.js:99-101 | `""` and `"ab"` are rejected and `"abc"` is accepted. |
| SchemaProperties.PasswordFieldRule | src/lib/schemas.js:104-111 | Both password fields of registration and of the password update use the password rule. A value raises nothing when strong. Otherwise it raises exactly the one password message. |
| SchemaProperties.UncheckedFieldsAcceptAnything | src/lib/schemas.js:3-105 | The login password, the old password and the project's `user` accept every string, including the empty one. |

## Messages that disagree with their rules

Four messages describe a rule different from the one enforced. The model
keeps the rule as written, and the lemmas named below state the difference.

- The password message asks for "at least 1 lowercase letter, at least 1
  uppercase letter and a number". The pattern asks for any letter, a digit and
  one of `@$!%*#?&`.
  - `Patterns.PasswordExamples` shows the all-lower-case `"abc123!@"` accepted.
  - `Patterns.PasswordIgnoresLetterCase` shows letter case never matters.
  - `Patterns.PasswordPatternMeaning` shows a symbol is required although the message does not mention one.
- The name message says "less than 64 characters". `max(64)` accepts exactly
  64 (`SchemaProperties.PersonNameRule`).
- The name message says "letters and spaces". The range `A-z` also admits
  `[ \ ] ^ _` and backquote. `\s` admits tabs, line breaks and the other
  Unicode spaces (`Patterns.NameClassMeaning`, `Patterns.NamePatternExamples`).
- The thumbnail and avatar size messages say "must be less than 5MB". An image
  of exactly 5242880 bytes, which is 5 MiB, is accepted (`Refinements.ImageExamples`).

## Left out

- `.email()` and `.url()`: their formats belong to the validation library. They
  are parameters of the model (`Checks.Formats`), so every statement holds
  whatever those tests are.
- Missing values and values of the wrong type (`required_error`,
  `invalid_type`), and `z.instanceof(Blob)`: these are library behaviour. A
  field value is assumed to be a string, or an optional blob reduced to its
  size and media type.
- `.trim()`: the model does not produce the trimmed output value. It does not
  decide whether the library applies the length checks before or after
  trimming; the checks are applied to the value as given.
- Whether the object-level password refinement runs after a field has failed,
  how issues of different fields are merged, and the final parse result: these
  are library behaviour. The refinements are modelled as functions of their
  inputs only.
- The media type of a `Blob` is taken as given. Any normalisation a platform
  applies when it builds the blob is not modelled.
- The regular expressions match over Unicode scalar values rather than UTF-16
  code units. None of the three classes contains a surrogate or a character
  outside the Basic Multilingual Plane, and `.` appears only inside the
  password lookaheads. So a character outside the Basic Multilingual Plane is
  rejected either way.
- A JavaScript string may also hold a lone surrogate code unit, which a Dafny
  `string` cannot. All three patterns reject a lone surrogate, since none of
  their classes contains one. The fields without checks accept it. The model
  has no such strings.
- `loginUserSchema` and `updateEmailSchema` are modelled only as field sets. They
  hold no logic of their own beyond the library's email check.
