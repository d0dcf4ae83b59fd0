/**
  The checks a string field carries (`.min`, `.max`, `.regex`, `.email`,
  `.url`) and the issues they raise. Each failing check raises one issue at
  the field's path with the check's own message; the checks of a field are all
  evaluated, in the order they are declared, and none stops the others.
 */
module Checks {
  import opened JsText
  import opened RegExp

  /** A validation issue: where it is reported, and what it says. */
  datatype Issue = Issue(path: seq<string>, message: string)

  /** The email and URL format tests belong to the validation library and are
      not defined here; they are supplied as parameters. */
  datatype Formats = Formats(isEmail: string -> bool, isUrl: string -> bool)

  datatype StringCheck =
    | MinLength(min: nat, message: string)
    | MaxLength(max: nat, message: string)
    | Pattern(pattern: Regex, message: string)
    | EmailFormat(message: string)
    | UrlFormat(message: string)

  /** `check` rejects `s`. Length bounds are inclusive and count UTF-16 code units. */
  predicate Fails(check: StringCheck, s: string, formats: Formats) {
    match check
    case MinLength(n, _) => Utf16Length(s) < n
    case MaxLength(n, _) => Utf16Length(s) > n
    case Pattern(p, _) => !Test(p, s)
    case EmailFormat(_) => !formats.isEmail(s)
    case UrlFormat(_) => !formats.isUrl(s)
  }

  /** The issues that the checks of a string field raise on `s`: none exactly
      when every check passes. */
  function TextIssues(checks: seq<StringCheck>, path: seq<string>, s: string, formats: Formats): (r: seq<Issue>)
    ensures |r| <= |checks|
    ensures r == [] <==> forall k | 0 <= k < |checks| :: !Fails(checks[k], s, formats)
  {
    if |checks| == 0 then []
    else
      var rest := TextIssues(checks[1..], path, s, formats);
      assert forall k | 1 <= k < |checks| :: checks[k] == checks[1..][k - 1];
      (if Fails(checks[0], s, formats) then [Issue(path, checks[0].message)] else []) + rest
  }

  /** Every failing check raises an issue carrying its message at the field's
      path, and every issue raised is one of those. */
  lemma {:induction false} TextIssuesMeaning(checks: seq<StringCheck>, path: seq<string>, s: string, formats: Formats)
    ensures forall e | e in TextIssues(checks, path, s, formats) :: e.path == path
    ensures forall k | 0 <= k < |checks| :: Fails(checks[k], s, formats) ==> Issue(path, checks[k].message) in TextIssues(checks, path, s, formats)
    ensures forall e | e in TextIssues(checks, path, s, formats) ::
      exists k | 0 <= k < |checks| :: Fails(checks[k], s, formats) && e.message == checks[k].message
  {
    if |checks| > 0 {
      TextIssuesMeaning(checks[1..], path, s, formats);
      assert forall k | 1 <= k < |checks| :: checks[k] == checks[1..][k - 1];
    }
  }

  /** A single check raises its own message at the field's path when it fails,
      and nothing otherwise. */
  lemma TextIssuesSingle(check: StringCheck, path: seq<string>, s: string, formats: Formats)
    ensures TextIssues([check], path, s, formats)
         == (if Fails(check, s, formats) then [Issue(path, check.message)] else [])
  {
    assert [check][1..] == [];
  }

  /** The issues of a list of checks are those of its first part followed by
      those of the rest: checks are evaluated in declaration order, each one
      independently of the others. Together with `TextIssuesSingle` this fixes
      both the order and the number of the issues. */
  lemma {:induction false} TextIssuesAppend(a: seq<StringCheck>, b: seq<StringCheck>, path: seq<string>, s: string, formats: Formats)
    ensures TextIssues(a + b, path, s, formats) == TextIssues(a, path, s, formats) + TextIssues(b, path, s, formats)
  {
    if |a| == 0 {
      assert a + b == b;
    } else {
      assert (a + b)[0] == a[0];
      assert (a + b)[1..] == a[1..] + b;
      TextIssuesAppend(a[1..], b, path, s, formats);
      var head := if Fails(a[0], s, formats) then [Issue(path, a[0].message)] else [];
      calc {
        TextIssues(a + b, path, s, formats);
        head + TextIssues(a[1..] + b, path, s, formats);
        head + (TextIssues(a[1..], path, s, formats) + TextIssues(b, path, s, formats));
        (head + TextIssues(a[1..], path, s, formats)) + TextIssues(b, path, s, formats);
        TextIssues(a, path, s, formats) + TextIssues(b, path, s, formats);
      }
    }
  }

  /** The issues of three checks, one check at a time. */
  lemma TextIssuesOfThree(a: StringCheck, b: StringCheck, c: StringCheck, path: seq<string>, s: string, formats: Formats)
    ensures TextIssues([a, b, c], path, s, formats)
         == TextIssues([a], path, s, formats) + TextIssues([b], path, s, formats) + TextIssues([c], path, s, formats)
  {
    var ia, ib, ic := TextIssues([a], path, s, formats), TextIssues([b], path, s, formats), TextIssues([c], path, s, formats);
    assert [a, b, c] == [a] + ([b] + [c]);
    calc {
      TextIssues([a, b, c], path, s, formats);
      { TextIssuesAppend([a], [b] + [c], path, s, formats); }
      ia + TextIssues([b] + [c], path, s, formats);
      { TextIssuesAppend([b], [c], path, s, formats); }
      ia + (ib + ic);
      ia + ib + ic;
    }
  }
}
