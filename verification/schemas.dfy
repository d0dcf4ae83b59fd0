/**
  The eight form schemas as data: each is an ordered list of field descriptors
  (a field name and the rule for its value) together with the object-level
  refinement it carries, if any. The update-project schema is derived from the
  create-project schema by omitting the `user` field.
 */
module Schemas {
  import opened Options
  import opened Patterns
  import opened Checks
  import opened Refinements

  /** The rule of one field: a string with its checks, or an optional image
      whose size issue carries the given message. */
  datatype FieldRule =
    | Text(checks: seq<StringCheck>)
    | Image(sizeMessage: string)

  datatype Field = Field(name: string, rule: FieldRule)

  /** An object-level refinement, run over the whole record. */
  datatype Refinement = Unrefined | PasswordsMustMatch

  datatype Schema = Schema(shape: seq<Field>, refinement: Refinement)

  function Names(shape: seq<Field>): (names: seq<string>)
    ensures |names| == |shape|
    ensures forall k | 0 <= k < |shape| :: names[k] == shape[k].name
  {
    seq(|shape|, k requires 0 <= k < |shape| => shape[k].name)
  }

  /** No two fields of the shape share a name, as for the keys of an object. */
  predicate UniqueNames(shape: seq<Field>) {
    forall a, b | 0 <= a < b < |shape| :: shape[a].name != shape[b].name
  }

  /** The rule of the first field called `name`, if the shape has one. */
  function Lookup(shape: seq<Field>, name: string): (r: Option<FieldRule>)
    ensures r.None? <==> forall k | 0 <= k < |shape| :: shape[k].name != name
  {
    if |shape| == 0 then None
    else if shape[0].name == name then Some(shape[0].rule)
    else Lookup(shape[1..], name)
  }

  /** The shape without the fields named in `mask`, in their original order,
      as `.omit` builds it. */
  function Omit(shape: seq<Field>, mask: set<string>): (r: seq<Field>)
    ensures |r| <= |shape|
    ensures forall f | f in r :: f in shape && f.name !in mask
    ensures forall f | f in shape && f.name !in mask :: f in r
  {
    if |shape| == 0 then []
    else if shape[0].name in mask then Omit(shape[1..], mask)
    else [shape[0]] + Omit(shape[1..], mask)
  }

  /** Omitting changes no remaining field's rule and removes every masked one. */
  lemma {:induction false} OmitLookup(shape: seq<Field>, mask: set<string>, name: string)
    ensures name in mask ==> Lookup(Omit(shape, mask), name).None?
    ensures name !in mask ==> Lookup(Omit(shape, mask), name) == Lookup(shape, name)
  {
    if |shape| > 0 {
      OmitLookup(shape[1..], mask, name);
    }
  }

  /** Omitting fields from a shape with distinct names leaves distinct names. */
  lemma {:induction false} OmitUnique(shape: seq<Field>, mask: set<string>)
    requires UniqueNames(shape)
    ensures UniqueNames(Omit(shape, mask))
  {
    if |shape| > 0 {
      var tail := shape[1..];
      UniqueTail(shape);
      OmitUnique(tail, mask);
      if shape[0].name !in mask {
        var rest := Omit(tail, mask);
        forall f | f in rest ensures f.name != shape[0].name {
          var k :| 0 <= k < |tail| && tail[k] == f;
          assert shape[k + 1] == f;
        }
        PrependUnique(shape[0], rest);
      }
    }
  }

  lemma UniqueTail(shape: seq<Field>)
    requires |shape| > 0 && UniqueNames(shape)
    ensures UniqueNames(shape[1..])
  {
    var tail := shape[1..];
    forall a, b | 0 <= a < b < |tail| ensures tail[a].name != tail[b].name {
      assert tail[a] == shape[a + 1] && tail[b] == shape[b + 1];
    }
  }

  lemma PrependUnique(f: Field, rest: seq<Field>)
    requires UniqueNames(rest)
    requires forall g | g in rest :: g.name != f.name
    ensures UniqueNames([f] + rest)
  {
    var r := [f] + rest;
    forall a, b | 0 <= a < b < |r| ensures r[a].name != r[b].name {
      if a == 0 {
        assert r[b] in rest;
      } else {
        assert r[a] == rest[a - 1] && r[b] == rest[b - 1];
      }
    }
  }

  /** The issues a string field of the shape raises on `s`, or `None` when the
      shape has no string field of that name. */
  function TextFieldIssues(shape: seq<Field>, name: string, s: string, formats: Formats): (r: Option<seq<Issue>>)
    ensures r.Some? <==> Lookup(shape, name).Some? && Lookup(shape, name).value.Text?
    ensures r.Some? ==> forall e | e in r.value :: e.path == [name]
  {
    match Lookup(shape, name)
    case Some(Text(checks)) =>
      TextIssuesMeaning(checks, [name], s, formats);
      Some(TextIssues(checks, [name], s, formats))
    case _ => None
  }

  /** The issues an optional image field of the shape raises, at the field's
      own path, or `None` when the shape has no image field of that name. */
  function ImageFieldIssues(shape: seq<Field>, name: string, image: Option<Blob>): (r: Option<seq<Issue>>)
    ensures r.Some? <==> Lookup(shape, name).Some? && Lookup(shape, name).value.Image?
    ensures r.Some? ==> |r.value| <= 2 && forall e | e in r.value :: e.path == [name]
  {
    match Lookup(shape, name)
    case Some(Image(sizeMessage)) => Some(ImageIssues(image, [name], sizeMessage))
    case _ => None
  }

  /** The issues the object-level refinement raises on a record whose password
      and confirmation are the given values: only `PasswordsMustMatch` can
      raise any, and it does so exactly on a mismatch. */
  function RefinementIssues(refinement: Refinement, password: string, passwordConfirm: string): (r: seq<Issue>)
    ensures r == [] <==> refinement.Unrefined? || password == passwordConfirm
  {
    match refinement
    case Unrefined => []
    case PasswordsMustMatch => PasswordMatchIssues(password, passwordConfirm)
  }

  // ----- messages -----

  const NameRequiredMessage: string := "Name is required"
  const NameCharsMessage: string := "Name can only contain letters and spaces."
  const NameMinMessage: string := "Name must be at least 2 characters"
  const NameMaxMessage: string := "Name must be less than 64 characters"
  const PasswordMessage: string :=
    "Password must be a minimum of 8 characters & contain at least 1 lowercase letter, at least 1 uppercase letter and a number"
  const TaglineRequiredMessage: string := "Tagline is required"
  const DescriptionRequiredMessage: string := "Description is required"
  const UsernameMinMessage: string := "Username must be atleast 3 characters"
  const UsernameMaxMessage: string := "Username must be 24 characters or less"
  const UsernameCharsMessage: string := "Username can only contain letters or numbers."

  // ----- field rules -----

  /** The person-name rule of registration and of the profile update. */
  const PersonNameChecks: seq<StringCheck> := [
    Pattern(NamePattern, NameCharsMessage),
    MinLength(2, NameMinMessage),
    MaxLength(64, NameMaxMessage)
  ]

  /** The rule of a new password and of its confirmation. */
  const PasswordChecks: seq<StringCheck> := [Pattern(PasswordPattern, PasswordMessage)]

  const EmailChecks: seq<StringCheck> := [EmailFormat("Email must be a valid email")]

  const ProjectNameChecks: seq<StringCheck> :=
    [MinLength(1, NameRequiredMessage), MaxLength(64, "Name must be 64 characters or less")]

  const TaglineChecks: seq<StringCheck> :=
    [MinLength(1, TaglineRequiredMessage), MaxLength(64, "Tagline must be 64 characters or less")]

  const DescriptionChecks: seq<StringCheck> :=
    [MinLength(1, DescriptionRequiredMessage), MaxLength(512, "Description must be 512 characters or less")]

  const UsernameChecks: seq<StringCheck> := [
    MinLength(3, UsernameMinMessage),
    MaxLength(24, UsernameMaxMessage),
    Pattern(UsernamePattern, UsernameCharsMessage)
  ]

  // ----- the schemas -----

  const LoginUserSchema: Schema := Schema([
    Field("email", Text([EmailFormat("Email must be a valid email.")])),
    Field("password", Text([]))
  ], Unrefined)

  const RegisterUserSchema: Schema := Schema([
    Field("name", Text(PersonNameChecks)),
    Field("email", Text(EmailChecks)),
    Field("password", Text(PasswordChecks)),
    Field("passwordConfirm", Text(PasswordChecks))
  ], PasswordsMustMatch)

  /** The fields of a project that both the create and the update schema have. */
  const ProjectFields: seq<Field> := [
    Field("name", Text(ProjectNameChecks)),
    Field("tagline", Text(TaglineChecks)),
    Field("url", Text([UrlFormat("URL must be a valid URL")])),
    Field("description", Text(DescriptionChecks)),
    Field("thumbnail", Image("Thumbnail must be less than 5MB"))
  ]

  /** The owner of a new project: a string with no check. */
  const UserField: Field := Field("user", Text([]))

  const CreateProjectSchema: Schema := Schema(ProjectFields + [UserField], Unrefined)

  /** `.omit` keeps everything of the schema but the masked fields. */
  const UpdateProjectSchema: Schema :=
    Schema(Omit(CreateProjectSchema.shape, {"user"}), CreateProjectSchema.refinement)

  const UpdateEmailSchema: Schema := Schema([Field("email", Text(EmailChecks))], Unrefined)

  const UpdateUsernameSchema: Schema := Schema([Field("username", Text(UsernameChecks))], Unrefined)

  const UpdatePasswordSchema: Schema := Schema([
    Field("oldPassword", Text([])),
    Field("password", Text(PasswordChecks)),
    Field("passwordConfirm", Text(PasswordChecks))
  ], PasswordsMustMatch)

  const UpdateProfileSchema: Schema := Schema([
    Field("name", Text(PersonNameChecks)),
    Field("avatar", Image("Avatar must be less than 5MB"))
  ], Unrefined)

  // ----- properties -----

  /** `Lookup` finds the first field that carries the name. */
  lemma {:induction false} LookupAt(shape: seq<Field>, name: string, k: nat)
    requires k < |shape| && shape[k].name == name
    requires forall j | 0 <= j < k :: shape[j].name != name
    ensures Lookup(shape, name) == Some(shape[k].rule)
  {
    if k > 0 {
      LookupAt(shape[1..], name, k - 1);
    }
  }

  lemma {:induction false} OmitAppend(a: seq<Field>, b: seq<Field>, mask: set<string>)
    ensures Omit(a + b, mask) == Omit(a, mask) + Omit(b, mask)
  {
    if |a| > 0 {
      assert (a + b)[0] == a[0];
      assert (a + b)[1..] == a[1..] + b;
      OmitAppend(a[1..], b, mask);
      if a[0].name !in mask {
        calc {
          Omit(a + b, mask);
          [a[0]] + Omit(a[1..] + b, mask);
          [a[0]] + (Omit(a[1..], mask) + Omit(b, mask));
          ([a[0]] + Omit(a[1..], mask)) + Omit(b, mask);
          Omit(a, mask) + Omit(b, mask);
        }
      }
    } else {
      assert a + b == b;
    }
  }

  lemma {:induction false} OmitNothing(shape: seq<Field>, mask: set<string>)
    requires forall k | 0 <= k < |shape| :: shape[k].name !in mask
    ensures Omit(shape, mask) == shape
  {
    if |shape| > 0 {
      OmitNothing(shape[1..], mask);
    }
  }
}
