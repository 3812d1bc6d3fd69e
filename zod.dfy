/**
 * The slice of zod's parsing machinery the schemas use: JavaScript input values,
 * issues, the parse status (valid / dirty / aborted), and the combinators
 * `z.string()`, `z.enum`/`z.nativeEnum`, `z.instanceof`, string checks,
 * `.refine`, `.transform`, `.optional()` and the per-key issue path of `z.object`.
 */
module Zod {
  import opened Wrappers
  import JsText

  /** An uploaded file: its content and its declared MIME type (`file.type`). */
  datatype File = File(bytes: seq<bv8>, mimeType: string) {
    /** `file.size` */
    function Size(): nat { |bytes| }
  }

  /** The JavaScript values a form field can hold. */
  datatype JsValue = Undefined | Null | Bool(b: bool) | Str(s: string) | FileValue(file: File) | Object

  /** zod's name for the type of a value, used in its default messages. */
  function TypeName(v: JsValue): string {
    match v
    case Undefined => "undefined"
    case Null => "null"
    case Bool(_) => "boolean"
    case Str(_) => "string"
    case FileValue(_) => "object"
    case Object => "object"
  }

  datatype IssueCode = InvalidType | InvalidEnumValue | TooSmall | TooBig | Custom

  /** One entry of `error.errors`: its code, where it is, and its message. */
  datatype Issue = Issue(code: IssueCode, path: seq<string>, message: string)

  function Messages(issues: seq<Issue>): (ms: seq<string>)
    ensures |ms| == |issues|
    ensures forall k :: 0 <= k < |issues| ==> ms[k] == issues[k].message
  {
    seq(|issues|, k requires 0 <= k < |issues| => issues[k].message)
  }

  /** `.min(1)` on a string. */
  predicate NotEmpty(s: string) {
    |s| >= 1
  }

  /** The state of a parse: accepted, rejected but still checked further (dirty),
      or rejected for good (aborted). */
  datatype Parse<T> = Valid(value: T) | Dirty(value: T, issues: seq<Issue>) | Aborted(issues: seq<Issue>) {
    function Issues(): seq<Issue> {
      if Valid? then [] else issues
    }

    /** Rejected parses carry at least one issue. */
    predicate Sound() {
      Valid? || |issues| > 0
    }
  }

  /** The default message of an `invalid_type` issue. */
  function InvalidTypeIssue(expected: string, v: JsValue): (i: Issue)
    ensures i.code == InvalidType && i.path == []
    ensures v.Undefined? <==> i.message == "Required"
  {
    Issue(InvalidType, [], if v.Undefined? then "Required" else "Expected " + expected + ", received " + TypeName(v))
  }

  /** zod's rendering of a list of allowed values: `'a' | 'b' | 'c'`. */
  function JoinValues(values: seq<string>): string {
    JsText.Join(seq(|values|, k requires 0 <= k < |values| => "'" + values[k] + "'"), " | ")
  }

  /** `z.string()` */
  function StringOf(v: JsValue): (p: Parse<string>)
    ensures p.Sound()
    ensures p.Valid? <==> v.Str?
    ensures p.Valid? ==> p.value == v.s
    ensures !p.Valid? ==> p == Aborted([InvalidTypeIssue("string", v)])
  {
    match v
    case Str(s) => Valid(s)
    case _ => Aborted([InvalidTypeIssue("string", v)])
  }

  /** `z.enum(values)` and `z.nativeEnum` over a string enum: the value must be one of
      `values`; `decode` gives the enum member a string names. */
  function EnumOf<E>(v: JsValue, values: seq<string>, decode: string -> Option<E>): (p: Parse<E>)
    ensures p.Sound() && !p.Dirty?
    ensures p.Valid? <==> (v.Str? && decode(v.s).Some?)
    ensures p.Valid? ==> Some(p.value) == decode(v.s)
    ensures !v.Str? ==> p == Aborted([InvalidTypeIssue(JoinValues(values), v)])
  {
    match v
    case Str(s) =>
      (match decode(s)
       case Some(e) => Valid(e)
       case None => Aborted([Issue(InvalidEnumValue, [],
                      "Invalid enum value. Expected " + JoinValues(values) + ", received '" + s + "'")]))
    case _ => Aborted([InvalidTypeIssue(JoinValues(values), v)])
  }

  /** The message `z.instanceof(File)` uses when none is given. */
  const NotInstanceOfFileMessage := "Input not instance of File"

  /** `z.instanceof(File, { message })`: a failed check is fatal. */
  function InstanceOfFile(v: JsValue, message: string): (p: Parse<File>)
    ensures p.Sound() && !p.Dirty?
    ensures p.Valid? <==> v.FileValue?
    ensures p.Valid? ==> p.value == v.file
    ensures !p.Valid? ==> p == Aborted([Issue(Custom, [], message)])
  {
    match v
    case FileValue(f) => Valid(f)
    case _ => Aborted([Issue(Custom, [], message)])
  }

  /** A non-fatal check (a string `min`/`max`, or `.refine`): it runs unless the parse
      was aborted, and when `ok` fails it adds its issue and marks the parse dirty. */
  function Check<T>(p: Parse<T>, ok: T -> bool, issue: Issue): (r: Parse<T>)
    ensures p.Sound() ==> r.Sound()
    ensures r.Aborted? <==> p.Aborted?
    ensures r.Valid? <==> (p.Valid? && ok(p.value))
    ensures !p.Aborted? ==> !r.Aborted? && r.value == p.value
    ensures r.Issues() == p.Issues() + (if !p.Aborted? && !ok(p.value) then [issue] else [])
  {
    match p
    case Aborted(_) => p
    case Valid(x) => if ok(x) then p else Dirty(x, [issue])
    case Dirty(x, issues) => if ok(x) then p else Dirty(x, issues + [issue])
  }

  /** `.refine(ok, message)`: non-fatal, so a failing refinement adds a custom issue with
      its message and the parse goes on with the same value. */
  function Refine<T>(p: Parse<T>, ok: T -> bool, message: string): (r: Parse<T>)
    ensures r.Aborted? <==> p.Aborted?
    ensures r.Valid? <==> (p.Valid? && ok(p.value))
    ensures !p.Aborted? ==> r.value == p.value
    ensures r.Issues() == p.Issues() + (if !p.Aborted? && !ok(p.value) then [Issue(Custom, [], message)] else [])
  {
    Check(p, ok, Issue(Custom, [], message))
  }

  /** A refinement on a parse that is still running adds its message exactly when it fails. */
  lemma RefineAppends<T>(p: Parse<T>, ok: T -> bool, message: string)
    requires !p.Aborted?
    ensures !Refine(p, ok, message).Aborted? && Refine(p, ok, message).value == p.value
    ensures Refine(p, ok, message).Issues()
            == p.Issues() + CustomIssues(if ok(p.value) then [] else [message])
  {
    if !ok(p.value) {
      assert CustomIssues([message]) == [Issue(Custom, [], message)];
    }
  }

  /** `.transform(f)`: applied to accepted values only. A dirty parse keeps its issues;
      it is reported as aborted since no check of these schemas follows a transform. */
  function Transform<T, U>(p: Parse<T>, f: T -> U): (r: Parse<U>)
    ensures p.Sound() ==> r.Sound()
    ensures r.Valid? <==> p.Valid?
    ensures r.Valid? ==> r.value == f(p.value)
    ensures r.Issues() == p.Issues()
  {
    match p
    case Valid(x) => Valid(f(x))
    case Dirty(_, issues) => Aborted(issues)
    case Aborted(issues) => Aborted(issues)
  }

  /** `.optional()`: `undefined` is accepted as "absent"; anything else goes to `inner`. */
  function Optional<T>(v: JsValue, inner: JsValue -> Parse<T>): (r: Parse<Option<T>>)
    ensures v.Undefined? ==> r == Valid(None)
    ensures !v.Undefined? ==> r.Issues() == inner(v).Issues() && (r.Valid? <==> inner(v).Valid?)
    ensures !v.Undefined? && r.Valid? ==> r.value == Some(inner(v).value)
    ensures !v.Undefined? && inner(v).Sound() ==> r.Sound()
  {
    if v.Undefined? then Valid(None)
    else match inner(v)
      case Valid(x) => Valid(Some(x))
      case Dirty(x, issues) => Dirty(Some(x), issues)
      case Aborted(issues) => Aborted(issues)
  }

  /** `z.object` puts the key in front of the path of every issue of that field. */
  function AtPath(key: string, issues: seq<Issue>): (r: seq<Issue>)
    ensures |r| == |issues|
    ensures forall k :: 0 <= k < |r| ==>
      r[k] == Issue(issues[k].code, [key] + issues[k].path, issues[k].message)
  {
    seq(|issues|, k requires 0 <= k < |issues| => issues[k].(path := [key] + issues[k].path))
  }

  /** The issues `.refine` checks raise for the given messages, before any path is added. */
  function CustomIssues(messages: seq<string>): (r: seq<Issue>)
    ensures |r| == |messages|
    ensures Messages(r) == messages
    ensures forall k :: 0 <= k < |r| ==> r[k] == Issue(Custom, [], messages[k])
  {
    seq(|messages|, k requires 0 <= k < |messages| => Issue(Custom, [], messages[k]))
  }

  lemma CustomIssuesConcat(a: seq<string>, b: seq<string>)
    ensures CustomIssues(a + b) == CustomIssues(a) + CustomIssues(b)
  {
  }

  lemma MessagesAtPath(key: string, issues: seq<Issue>)
    ensures Messages(AtPath(key, issues)) == Messages(issues)
  {
  }
}
