/**
  The two hand-written refinements of the validation rules: the check that a
  password and its confirmation agree, and the size and media-type checks on an
  optional uploaded image (a profile avatar or a project thumbnail).
 */
module Refinements {
  import opened Options
  import opened Checks

  // ----- password confirmation -----

  const MatchMessage: string := "Password & Confirm password must match"

  /** The issues of the password/confirmation refinement. On a mismatch the same
      message is reported twice, once under each field, so that both inputs show it. */
  function PasswordMatchIssues(password: string, passwordConfirm: string): (r: seq<Issue>)
    ensures r == [] <==> password == passwordConfirm
    ensures r != [] ==> r == [Issue(["password"], MatchMessage), Issue(["passwordConfirm"], MatchMessage)]
  {
    if passwordConfirm != password then
      [Issue(["password"], MatchMessage), Issue(["passwordConfirm"], MatchMessage)]
    else
      []
  }

  /** Swapping the two values changes nothing: the refinement only compares them. */
  lemma PasswordMatchSymmetric(password: string, passwordConfirm: string)
    ensures PasswordMatchIssues(password, passwordConfirm) == PasswordMatchIssues(passwordConfirm, password)
  {
  }

  /** On a mismatch every message is the match message, and each of the two
      paths receives exactly one issue. */
  lemma PasswordMismatchPaths(password: string, passwordConfirm: string)
    requires password != passwordConfirm
    ensures forall e | e in PasswordMatchIssues(password, passwordConfirm) :: e.message == MatchMessage
    ensures forall p | p in [["password"], ["passwordConfirm"]] ::
      |set k | 0 <= k < 2 && PasswordMatchIssues(password, passwordConfirm)[k].path == p| == 1
  {
    var r := PasswordMatchIssues(password, passwordConfirm);
    assert ["password"] != ["passwordConfirm"];
    assert (set k | 0 <= k < 2 && r[k].path == ["password"]) == {0};
    assert (set k | 0 <= k < 2 && r[k].path == ["passwordConfirm"]) == {1};
  }

  // ----- uploaded images -----

  /** The part of a `Blob` the checks read: its size in bytes and its media type. */
  datatype Blob = Blob(size: nat, mediaType: string)

  /** 5 MiB. */
  const MaxImageBytes: nat := 5242880

  const ImageTypes: seq<string> :=
    ["image/jpeg", "image/jpg", "image/png", "image/webp", "image/svg+xml", "image/gif"]

  const TypeMessage: string := "Unsupported file type. Supported formats: jpeg, jpg, png, webp, svg, gif"

  predicate TooLarge(b: Blob) { b.size > MaxImageBytes }

  /** Exact string comparison with one of the listed types: no case folding,
      no parameters such as `; charset=...`. */
  predicate AllowedType(b: Blob) { b.mediaType in ImageTypes }

  /** The issues of an optional image field. An absent image raises nothing;
      otherwise the size check and the type check are both made, and the size
      issue, if any, comes first. */
  function ImageIssues(image: Option<Blob>, path: seq<string>, sizeMessage: string): (r: seq<Issue>)
    ensures |r| == (if image.Some? && TooLarge(image.value) then 1 else 0)
                 + (if image.Some? && !AllowedType(image.value) then 1 else 0)
    ensures forall e | e in r :: e.path == path
    ensures image.Some? && TooLarge(image.value) ==> r[0] == Issue(path, sizeMessage)
    ensures image.Some? && !AllowedType(image.value) ==> r[|r| - 1] == Issue(path, TypeMessage)
  {
    match image
    case None => []
    case Some(b) =>
      (if b.size > MaxImageBytes then [Issue(path, sizeMessage)] else [])
      + (if b.mediaType !in ImageTypes then [Issue(path, TypeMessage)] else [])
  }

  /** The two checks are independent: the issues of an image are those its size
      raises with an accepted type, followed by those its type raises at size zero. */
  lemma ImageChecksIndependent(size: nat, mediaType: string, path: seq<string>, sizeMessage: string)
    ensures ImageIssues(Some(Blob(size, mediaType)), path, sizeMessage)
         == ImageIssues(Some(Blob(size, "image/png")), path, sizeMessage)
          + ImageIssues(Some(Blob(0, mediaType)), path, sizeMessage)
  {
    assert "image/png" in ImageTypes;
  }

  /** Concrete verdicts on images: the size bound is inclusive, and type
      comparison is exact. */
  lemma ImageExamples(path: seq<string>, m: string)
    ensures ImageIssues(None, path, m) == []
    ensures ImageIssues(Some(Blob(5242880, "image/png")), path, m) == []
    ensures ImageIssues(Some(Blob(5242881, "image/gif")), path, m) == [Issue(path, m)]
    ensures ImageIssues(Some(Blob(10, "image/JPEG")), path, m) == [Issue(path, TypeMessage)]
    ensures ImageIssues(Some(Blob(6000000, "application/pdf")), path, m) == [Issue(path, m), Issue(path, TypeMessage)]
  {
    assert "image/png" in ImageTypes;
    assert "image/gif" in ImageTypes;
    assert "image/JPEG" !in ImageTypes by {
      forall t | t in ImageTypes ensures t != "image/JPEG" {
        assert t[6] != 'J';
      }
    }
  }
}
