/**
  Properties of the form schemas: the derivation of the update-project schema,
  the distinct field names, and what each field rule accepts.
 */
module SchemaProperties {
  import opened Options
  import opened JsText
  import opened Patterns
  import opened Checks
  import opened Refinements
  import opened Schemas

  /** No project field other than the last is called `user`. */
  lemma ProjectFieldsLackUser()
    ensures CreateProjectSchema.shape == ProjectFields + [UserField]
    ensures Names(ProjectFields) == ["name", "tagline", "url", "description", "thumbnail"]
    ensures forall k | 0 <= k < |ProjectFields| :: ProjectFields[k].name != "user"
  {
    assert forall k | 0 <= k < |ProjectFields| :: |ProjectFields[k].name| != 4 || ProjectFields[k].name[0] != 'u';
  }

  lemma OmitUserField()
    ensures Omit(ProjectFields + [UserField], {"user"}) == ProjectFields
  {
    ProjectFieldsLackUser();
    OmitNothing(ProjectFields, {"user"});
    OmitAppend(ProjectFields, [UserField], {"user"});
    assert Omit([UserField], {"user"}) == [];
  }

  /** The update-project schema has exactly the create-project fields other
      than `user`, in the same order. */
  lemma UpdateProjectShape()
    ensures CreateProjectSchema.shape == ProjectFields + [UserField]
    ensures UpdateProjectSchema.shape == ProjectFields
    ensures Names(ProjectFields) == ["name", "tagline", "url", "description", "thumbnail"]
  {
    ProjectFieldsLackUser();
    OmitUserField();
  }

  /** Only the create-project schema has `user`; every other field keeps its
      rule in the update-project schema. */
  lemma UpdateProjectLookups()
    ensures Lookup(CreateProjectSchema.shape, "user") == Some(Text([]))
    ensures Lookup(UpdateProjectSchema.shape, "user").None?
    ensures forall name | name != "user" :: Lookup(UpdateProjectSchema.shape, name) == Lookup(CreateProjectSchema.shape, name)
  {
    var c := CreateProjectSchema.shape;
    assert forall k | 0 <= k < 5 :: c[k].name != "user";
    LookupAt(c, "user", 5);
    forall name | name != "user"
      ensures Lookup(UpdateProjectSchema.shape, name) == Lookup(CreateProjectSchema.shape, name)
    {
      OmitLookup(c, {"user"}, name);
    }
    OmitLookup(c, {"user"}, "user");
  }

  /** The thumbnail of both project schemas and the profile avatar are optional
      images, each with its own size message. */
  lemma ImageFieldRules()
    ensures Lookup(CreateProjectSchema.shape, "thumbnail") == Some(Image("Thumbnail must be less than 5MB"))
    ensures Lookup(UpdateProjectSchema.shape, "thumbnail") == Some(Image("Thumbnail must be less than 5MB"))
    ensures Lookup(UpdateProfileSchema.shape, "avatar") == Some(Image("Avatar must be less than 5MB"))
  {
    var c := CreateProjectSchema.shape;
    assert |c[0].name| == 4 && |c[1].name| == 7 && |c[2].name| == 3 && |c[3].name| == 11;
    LookupAt(c, "thumbnail", 4);
    UpdateProjectLookups();
    assert |UpdateProfileSchema.shape[0].name| == 4;
  }

  /** The image issues of the thumbnail, in both project schemas, and of the
      avatar are those of the image refinement, reported at the field's own
      path with the field's own size message. */
  lemma ImageFieldIssuesAtPath(image: Option<Blob>)
    ensures ImageFieldIssues(CreateProjectSchema.shape, "thumbnail", image)
         == Some(ImageIssues(image, ["thumbnail"], "Thumbnail must be less than 5MB"))
    ensures ImageFieldIssues(UpdateProjectSchema.shape, "thumbnail", image)
         == Some(ImageIssues(image, ["thumbnail"], "Thumbnail must be less than 5MB"))
    ensures ImageFieldIssues(UpdateProfileSchema.shape, "avatar", image)
         == Some(ImageIssues(image, ["avatar"], "Avatar must be less than 5MB"))
  {
    ImageFieldRules();
  }

  /** Registration and the password update compare the password with its
      confirmation; no other schema has an object-level refinement. */
  lemma SchemaRefinements(password: string, passwordConfirm: string)
    ensures RegisterUserSchema.refinement == PasswordsMustMatch
    ensures UpdatePasswordSchema.refinement == PasswordsMustMatch
    ensures RefinementIssues(RegisterUserSchema.refinement, password, passwordConfirm)
         == PasswordMatchIssues(password, passwordConfirm)
    ensures RefinementIssues(UpdatePasswordSchema.refinement, password, passwordConfirm)
         == PasswordMatchIssues(password, passwordConfirm)
    ensures LoginUserSchema.refinement == Unrefined
    ensures CreateProjectSchema.refinement == Unrefined
    ensures UpdateProjectSchema.refinement == Unrefined
    ensures UpdateEmailSchema.refinement == Unrefined
    ensures UpdateUsernameSchema.refinement == Unrefined
    ensures UpdateProfileSchema.refinement == Unrefined
  {
  }

  /** Both project schemas key their fields by distinct names. */
  lemma ProjectFieldNamesUnique()
    ensures UniqueNames(CreateProjectSchema.shape)
    ensures UniqueNames(UpdateProjectSchema.shape)
  {
    assert UniqueNames(CreateProjectSchema.shape) by {
      assert Names(CreateProjectSchema.shape) == ["name", "tagline", "url", "description", "thumbnail", "user"];
    }
    OmitUnique(CreateProjectSchema.shape, {"user"});
  }

  /** The other schemas key their fields by distinct names as well. */
  lemma SchemaFieldNamesUnique()
    ensures UniqueNames(LoginUserSchema.shape)
    ensures UniqueNames(RegisterUserSchema.shape)
    ensures UniqueNames(UpdateEmailSchema.shape)
    ensures UniqueNames(UpdateUsernameSchema.shape)
    ensures UniqueNames(UpdatePasswordSchema.shape)
    ensures UniqueNames(UpdateProfileSchema.shape)
  {
    assert Names(RegisterUserSchema.shape) == ["name", "email", "password", "passwordConfirm"];
    assert Names(UpdatePasswordSchema.shape) == ["oldPassword", "password", "passwordConfirm"];
    assert Names(LoginUserSchema.shape) == ["email", "password"];
    assert Names(UpdateProfileSchema.shape) == ["name", "avatar"];
  }

  /** The person-name rule raises the character issue exactly when a character
      is outside `[a-zA-z\s]`, and the length issues exactly outside 2..64 code
      units: both bounds are inclusive, although the message says "less than
      64". Registration and the profile update share the rule. */
  lemma PersonNameRule(s: string, formats: Formats)
    ensures Lookup(RegisterUserSchema.shape, "name") == Some(Text(PersonNameChecks))
    ensures Lookup(UpdateProfileSchema.shape, "name") == Some(Text(PersonNameChecks))
    ensures var r := TextIssues(PersonNameChecks, ["name"], s, formats);
      && (Issue(["name"], NameCharsMessage) in r <==> !NameChars(s))
      && (Issue(["name"], NameMinMessage) in r <==> Utf16Length(s) < 2)
      && (Issue(["name"], NameMaxMessage) in r <==> Utf16Length(s) > 64)
      && (r == [] <==> NameChars(s) && 2 <= Utf16Length(s) <= 64)
  {
    NamePatternMeaning(s);
    TextIssuesMeaning(PersonNameChecks, ["name"], s, formats);
    var checks := PersonNameChecks;
    assert checks[0].message == NameCharsMessage && checks[1].message == NameMinMessage && checks[2].message == NameMaxMessage;
    assert |NameCharsMessage| == 41 && |NameMinMessage| == 34 && |NameMaxMessage| == 36;
  }

  /** The exact issue list of the person-name rule: the character issue, then
      the minimum-length issue, then the maximum-length issue, each present
      exactly when its check fails. */
  lemma PersonNameIssues(s: string, formats: Formats)
    ensures TextIssues(PersonNameChecks, ["name"], s, formats)
         == (if NameChars(s) then [] else [Issue(["name"], NameCharsMessage)])
          + (if Utf16Length(s) < 2 then [Issue(["name"], NameMinMessage)] else [])
          + (if Utf16Length(s) > 64 then [Issue(["name"], NameMaxMessage)] else [])
  {
    var path := ["name"];
    var c0 := Pattern(NamePattern, NameCharsMessage);
    var c1 := MinLength(2, NameMinMessage);
    var c2 := MaxLength(64, NameMaxMessage);
    TextIssuesOfThree(c0, c1, c2, path, s, formats);
    assert Fails(c0, s, formats) <==> !NameChars(s) by {
      NamePatternMeaning(s);
    }
    TextIssuesSingle(c0, path, s, formats);
    TextIssuesSingle(c1, path, s, formats);
    TextIssuesSingle(c2, path, s, formats);
  }

  /** The name, tagline and description of a project carry the same checks
      in the create and the update schema. */
  lemma ProjectTextLookups()
    ensures Lookup(CreateProjectSchema.shape, "name") == Some(Text(ProjectNameChecks))
    ensures Lookup(CreateProjectSchema.shape, "tagline") == Some(Text(TaglineChecks))
    ensures Lookup(CreateProjectSchema.shape, "description") == Some(Text(DescriptionChecks))
    ensures Lookup(UpdateProjectSchema.shape, "name") == Some(Text(ProjectNameChecks))
    ensures Lookup(UpdateProjectSchema.shape, "tagline") == Some(Text(TaglineChecks))
    ensures Lookup(UpdateProjectSchema.shape, "description") == Some(Text(DescriptionChecks))
  {
    var c := CreateProjectSchema.shape;
    LookupAt(c, "name", 0);
    assert |c[0].name| == 4;
    LookupAt(c, "tagline", 1);
    assert |c[1].name| == 7 && |c[2].name| == 3;
    LookupAt(c, "description", 3);
    UpdateProjectLookups();
  }

  /** A project's name and tagline are accepted exactly when they have 1 to 64
      code units, and its description exactly when it has 1 to 512. */
  lemma ProjectTextBounds(s: string, formats: Formats)
    ensures TextIssues(ProjectNameChecks, ["name"], s, formats) == [] <==> 1 <= Utf16Length(s) <= 64
    ensures TextIssues(TaglineChecks, ["tagline"], s, formats) == [] <==> 1 <= Utf16Length(s) <= 64
    ensures TextIssues(DescriptionChecks, ["description"], s, formats) == [] <==> 1 <= Utf16Length(s) <= 512
  {
  }

  /** A tagline of 33 characters outside the Basic Multilingual Plane is 66
      code units long, and so is rejected by the 64-unit bound. */
  lemma TaglineCountsCodeUnits(formats: Formats)
    ensures var s := seq(33, _ => '\U{1F600}');
      Utf16Length(s) == 66 && TextIssues(TaglineChecks, ["tagline"], s, formats) != []
  {
    var s := seq(33, _ => '\U{1F600}');
    ProjectTextBounds(s, formats);
  }

  /** A username is accepted exactly when it has 3 to 24 characters, all ASCII
      letters or digits. */
  lemma UsernameRule(s: string, formats: Formats)
    ensures Lookup(UpdateUsernameSchema.shape, "username") == Some(Text(UsernameChecks))
    ensures TextIssues(UsernameChecks, ["username"], s, formats) == [] <==> 3 <= |s| <= 24 && AsciiAlphanumeric(s)
  {
    UsernamePatternMeaning(s);
    var checks := UsernameChecks;
    assert TextIssues(checks, ["username"], s, formats) == [] <==>
      !Fails(checks[0], s, formats) && !Fails(checks[1], s, formats) && !Fails(checks[2], s, formats);
    if AsciiAlphanumeric(s) {
      assert IsBmp(s);
      assert Utf16Length(s) == |s|;
    }
  }

  /** Concrete verdicts on usernames. */
  lemma UsernameExamples(formats: Formats)
    ensures TextIssues(UsernameChecks, ["username"], "", formats) != []
    ensures TextIssues(UsernameChecks, ["username"], "ab", formats) != []
    ensures TextIssues(UsernameChecks, ["username"], "abc", formats) == []
  {
    assert TextIssues(UsernameChecks, ["username"], "", formats) != [] by {
      UsernameRule("", formats);
    }
    assert TextIssues(UsernameChecks, ["username"], "ab", formats) != [] by {
      UsernameRule("ab", formats);
    }
    assert TextIssues(UsernameChecks, ["username"], "abc", formats) == [] by {
      UsernameRule("abc", formats);
    }
  }

  /** A new password and its confirmation raise no issue when strong and
      otherwise exactly the one password message, in both the registration and
      the password-update schemas. */
  lemma PasswordFieldRule(s: string, path: seq<string>, formats: Formats)
    ensures Lookup(RegisterUserSchema.shape, "password") == Some(Text(PasswordChecks))
    ensures Lookup(RegisterUserSchema.shape, "passwordConfirm") == Some(Text(PasswordChecks))
    ensures Lookup(UpdatePasswordSchema.shape, "password") == Some(Text(PasswordChecks))
    ensures Lookup(UpdatePasswordSchema.shape, "passwordConfirm") == Some(Text(PasswordChecks))
    ensures TextIssues(PasswordChecks, path, s, formats)
         == (if StrongPassword(s) then [] else [Issue(path, PasswordMessage)])
  {
    PasswordPatternMeaning(s);
    TextIssuesMeaning(PasswordChecks, path, s, formats);
    var r := TextIssues(PasswordChecks, path, s, formats);
    if !StrongPassword(s) {
      assert Issue(path, PasswordMessage) in r;
    }
    var reg := RegisterUserSchema.shape;
    var upd := UpdatePasswordSchema.shape;
    assert |reg[0].name| == 4 && |reg[1].name| == 5 && |reg[2].name| == 8;
    LookupAt(reg, "password", 2);
    LookupAt(reg, "passwordConfirm", 3);
    assert |upd[0].name| == 11 && |upd[1].name| == 8;
    LookupAt(upd, "password", 1);
    LookupAt(upd, "passwordConfirm", 2);
  }

  /** The login password, the old password and the project's `user` carry no
      check at all: every string, the empty one included, is accepted. */
  lemma UncheckedFieldsAcceptAnything(s: string, formats: Formats)
    ensures TextFieldIssues(LoginUserSchema.shape, "password", s, formats) == Some([])
    ensures TextFieldIssues(UpdatePasswordSchema.shape, "oldPassword", s, formats) == Some([])
    ensures TextFieldIssues(CreateProjectSchema.shape, "user", s, formats) == Some([])
  {
    UpdateProjectLookups();
    assert |LoginUserSchema.shape[0].name| == 5;
  }
}
