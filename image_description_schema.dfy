/**
 * `ImageDescriptionSchema`: a description that is any string of at least one
 * character. Nothing is trimmed and a blank description is accepted.
 */
module ImageDescriptionSchema {
  import opened Wrappers
  import opened Zod

  const DescriptionRequiredMessage := "Description is required"

  datatype DescriptionFields = DescriptionFields(description: JsValue)

  function DescriptionField(v: JsValue): Parse<string> {
    Check(StringOf(v), NotEmpty, Issue(TooSmall, [], DescriptionRequiredMessage))
  }

  /** `ImageDescriptionSchema.safeParse(fields)` */
  function Validate(fields: DescriptionFields): (r: Result<string, seq<Issue>>)
    ensures r.Success? <==> fields.description.Str? && |fields.description.s| >= 1
    ensures r.Success? ==> r.value == fields.description.s
    ensures r.Failure? ==> |r.error| == 1
  {
    var description := DescriptionField(fields.description);
    if description.Valid? then Success(description.value)
    else Failure(AtPath("description", description.Issues()))
  }

  /** The empty string is rejected with the schema's own message at `description`. */
  lemma EmptyDescriptionRejected()
    ensures Validate(DescriptionFields(Str(""))) ==
      Failure([Issue(TooSmall, ["description"], DescriptionRequiredMessage)])
  {
    var issues := [Issue(TooSmall, [], DescriptionRequiredMessage)];
    assert DescriptionField(Str("")).Issues() == issues;
    var r := AtPath("description", issues);
    assert ["description"] + [] == ["description"];
    assert |r| == 1 && r[0] == Issue(TooSmall, ["description"], DescriptionRequiredMessage);
    assert r == [Issue(TooSmall, ["description"], DescriptionRequiredMessage)];
    assert Validate(DescriptionFields(Str(""))) == Failure(r);
  }

  /** A missing or non-string description fails the type check alone. */
  lemma NonStringRejected(v: JsValue)
    requires !v.Str?
    ensures Validate(DescriptionFields(v)) ==
      Failure([InvalidTypeIssue("string", v).(path := ["description"])])
  {
    var i := InvalidTypeIssue("string", v);
    assert DescriptionField(v) == Aborted([i]);
    var r := AtPath("description", [i]);
    assert ["description"] + [] == ["description"];
    assert |r| == 1 && r[0] == i.(path := ["description"]);
    assert r == [i.(path := ["description"])];
    assert Validate(DescriptionFields(v)) == Failure(r);
  }

  /** Whitespace counts as content: a blank description is kept as it is. */
  lemma BlankDescriptionAccepted(s: string)
    requires |s| >= 1 && forall k :: 0 <= k < |s| ==> s[k] == ' '
    ensures Validate(DescriptionFields(Str(s))) == Success(s)
  {
  }
}
