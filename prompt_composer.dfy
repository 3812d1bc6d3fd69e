/**
 * The system message `generateImageCaption` sends with the image: a fixed head, the
 * caption length (Medium when absent), an optional tone clause, an optional context
 * clause and a fixed tail, joined with nothing in between. A parser recovers the options
 * from the message, which shows that the message determines them.
 */
module PromptComposer {
  import opened Wrappers
  import JsText
  import opened CaptionFormSchema

  const Head := "Create an Instagram caption that is "
  const Tail := ". Please do not wrap the caption in quotes."
  const LengthSuffix := " length"
  const ToneOpen := " with a "
  const ToneClose := " tone"
  const ContextOpen := " considering the context: '"
  const ContextClose := "'"

  /** `${captionLength} length` */
  function LengthPart(l: CaptionLength): string {
    l.Value() + LengthSuffix
  }

  /** `captionTone ? ` with a ${captionTone} tone` : ''`: every tone value is a
      non-empty string, so a present tone is truthy. */
  function TonePart(t: Option<CaptionTone>): (r: string)
    ensures r == "" <==> t.None?
    ensures t.Some? ==> JsText.StartsWith(r, ToneOpen)
  {
    match t
    case Some(tone) => ToneOpen + tone.Value() + ToneClose
    case None => ""
  }

  /** `captionContext ? ` considering the context: '${captionContext}'` : ''`: the
      empty string is falsy. */
  function ContextPart(c: Option<string>): (r: string)
    ensures r == "" <==> !(c.Some? && c.value != "")
  {
    if c.Some? && c.value != "" then ContextOpen + c.value + ContextClose else ""
  }

  /** The system message; an absent length stands for `CaptionLengthEnum.Medium`. */
  function SystemMessage(context: Option<string>, length: Option<CaptionLength>, tone: Option<CaptionTone>): (m: string)
    ensures JsText.StartsWith(m, Head)
  {
    var l := if length.Some? then length.value else Medium;
    var body := LengthPart(l) + TonePart(tone) + ContextPart(context);
    Enclosed(Head, body, Tail);
    Head + body + Tail
  }

  /** Stripping the head and the tail of `h + b + t` leaves `b`. */
  lemma Enclosed(h: string, b: string, t: string)
    ensures JsText.StripPrefix(h + b + t, h) == Some(b + t)
    ensures JsText.StripSuffix(b + t, t) == Some(b)
  {
    assert h + b + t == h + (b + t);
    JsText.StripPrefixOfConcat(h, b + t);
    JsText.StripSuffixOfConcat(b, t);
  }

  /** What the message can say: the length it names, the tone if any and the context if
      any, never empty. */
  datatype PromptOptions = PromptOptions(context: Option<string>, length: CaptionLength, tone: Option<CaptionTone>)

  /** The options a request amounts to: the default length filled in and an empty
      context dropped. */
  function Normalize(context: Option<string>, length: Option<CaptionLength>, tone: Option<CaptionTone>): (o: PromptOptions)
    ensures o.context.Some? ==> o.context.value != ""
  {
    PromptOptions(if context.Some? && context.value != "" then context else None,
                  if length.Some? then length.value else Medium,
                  tone)
  }

  // The parser, one part at a time.

  function ParseLength(s: string): Option<(CaptionLength, string)> {
    if JsText.StartsWith(s, LengthPart(Short)) then Some((Short, s[|LengthPart(Short)|..]))
    else if JsText.StartsWith(s, LengthPart(Medium)) then Some((Medium, s[|LengthPart(Medium)|..]))
    else if JsText.StartsWith(s, LengthPart(Long)) then Some((Long, s[|LengthPart(Long)|..]))
    else if JsText.StartsWith(s, LengthPart(VeryLong)) then Some((VeryLong, s[|LengthPart(VeryLong)|..]))
    else None
  }

  /** A tone value runs up to the next space (no tone value contains one). */
  function ParseTone(s: string): Option<(Option<CaptionTone>, string)> {
    match JsText.StripPrefix(s, ToneOpen)
    case None => Some((None, s))
    case Some(x) =>
      var i := JsText.IndexOf(x, ' ');
      var tone :- ToneFromValue(x[..i]);
      var rest :- JsText.StripPrefix(x[i..], ToneClose);
      Some((Some(tone), rest))
  }

  function ParseContext(s: string): Option<Option<string>> {
    if s == "" then Some(None)
    else
      var x :- JsText.StripPrefix(s, ContextOpen);
      var c :- JsText.StripSuffix(x, ContextClose);
      if c == "" then None else Some(Some(c))
  }

  /** The options a system message states, if it is one. */
  function ParseSystemMessage(m: string): Option<PromptOptions> {
    var inner :- JsText.StripPrefix(m, Head);
    var body :- JsText.StripSuffix(inner, Tail);
    ParseBody(body)
  }

  /** The options stated between the head and the tail. */
  function ParseBody(body: string): Option<PromptOptions> {
    var lengthAndRest :- ParseLength(body);
    var toneAndRest :- ParseTone(lengthAndRest.1);
    var context :- ParseContext(toneAndRest.1);
    Some(PromptOptions(context, lengthAndRest.0, toneAndRest.0))
  }

  lemma ParseLengthOf(l: CaptionLength, rest: string)
    ensures ParseLength(LengthPart(l) + rest) == Some((l, rest))
  {
    var s := LengthPart(l) + rest;
    JsText.StripPrefixOfConcat(LengthPart(l), rest);
    assert s[0] == l.Value()[0];
    if l != Short {
      JsText.NotStartsWithAt(s, LengthPart(Short), 0);
    }
    if l != Short && l != Medium {
      JsText.NotStartsWithAt(s, LengthPart(Medium), 0);
    }
    if l == VeryLong {
      JsText.NotStartsWithAt(s, LengthPart(Long), 0);
    }
  }

  lemma NoSpaceInTone(t: CaptionTone)
    ensures ' ' !in t.Value()
  {
  }

  lemma ParseToneOf(t: Option<CaptionTone>, rest: string)
    requires !JsText.StartsWith(rest, ToneOpen)
    ensures ParseTone(TonePart(t) + rest) == Some((t, rest))
  {
    if t.Some? {
      assert TonePart(t) + rest == ToneOpen + (t.value.Value() + ToneClose + rest);
      ParseToneSome(t.value, rest);
    } else {
      assert TonePart(t) + rest == rest;
    }
  }

  lemma ParseToneSome(tone: CaptionTone, rest: string)
    ensures ParseTone(ToneOpen + (tone.Value() + ToneClose + rest)) == Some((Some(tone), rest))
  {
    var v := tone.Value();
    var x := v + ToneClose + rest;
    JsText.StripPrefixOfConcat(ToneOpen, x);
    NoSpaceInTone(tone);
    WordBeforeSpace(v, rest);
    ToneValuesNameTones(v, tone);
    JsText.StripPrefixOfConcat(ToneClose, rest);
  }

  /** A word without spaces followed by " tone" ends at the first space. */
  lemma WordBeforeSpace(v: string, rest: string)
    requires ' ' !in v
    ensures var x := v + ToneClose + rest;
      JsText.IndexOf(x, ' ') == |v| && x[..|v|] == v && x[|v|..] == ToneClose + rest
  {
    var x := v + ToneClose + rest;
    assert x == v + [' '] + ("tone" + rest);
    JsText.IndexOfFirst(v, ' ', "tone" + rest);
  }

  lemma ParseContextOf(c: Option<string>)
    ensures ParseContext(ContextPart(c)) == Some(Normalize(c, None, None).context)
  {
    if c.Some? && c.value != "" {
      var s := ContextPart(c);
      assert s == ContextOpen + (c.value + ContextClose);
      JsText.StripPrefixOfConcat(ContextOpen, c.value + ContextClose);
      JsText.StripSuffixOfConcat(c.value, ContextClose);
    }
  }

  /** The context clause never begins like a tone clause, so a missing tone is read as
      missing. */
  lemma ContextPartIsNotTone(c: Option<string>)
    ensures !JsText.StartsWith(ContextPart(c), ToneOpen)
  {
    if c.Some? && c.value != "" {
      JsText.NotStartsWithAt(ContextPart(c), ToneOpen, 1);
    }
  }

  /** Parsing a system message gives back the options it was composed from, with the
      default length filled in and an empty context dropped. */
  lemma {:induction false} SystemMessageRoundTrip(context: Option<string>, length: Option<CaptionLength>, tone: Option<CaptionTone>)
    ensures ParseSystemMessage(SystemMessage(context, length, tone)) == Some(Normalize(context, length, tone))
  {
    var l := if length.Some? then length.value else Medium;
    var body := LengthPart(l) + TonePart(tone) + ContextPart(context);
    Enclosed(Head, body, Tail);
    ParseBodyOf(context, l, tone);
  }

  lemma {:induction false} ParseBodyOf(context: Option<string>, l: CaptionLength, tone: Option<CaptionTone>)
    ensures ParseBody(LengthPart(l) + TonePart(tone) + ContextPart(context))
      == Some(PromptOptions(Normalize(context, None, None).context, l, tone))
  {
    var cs := ContextPart(context);
    var tc := TonePart(tone) + cs;
    Regroup(LengthPart(l), TonePart(tone), cs);
    ParseLengthOf(l, tc);
    ContextPartIsNotTone(context);
    ParseToneOf(tone, cs);
    ParseContextOf(context);
    ParseBodyOfParts(LengthPart(l) + tc, l, tc, tone, cs, Normalize(context, None, None).context);
  }

  lemma Regroup(a: string, b: string, c: string)
    ensures a + b + c == a + (b + c)
  {
  }

  /** The body parser chains the three part parsers. */
  lemma ParseBodyOfParts(body: string, l: CaptionLength, tc: string, tone: Option<CaptionTone>,
                         cs: string, c: Option<string>)
    requires ParseLength(body) == Some((l, tc))
    requires ParseTone(tc) == Some((tone, cs))
    requires ParseContext(cs) == Some(c)
    ensures ParseBody(body) == Some(PromptOptions(c, l, tone))
  {
  }

  /** Two requests give the same message exactly when they ask for the same thing. */
  lemma {:induction false} SystemMessageDeterminesOptions(
    c1: Option<string>, l1: Option<CaptionLength>, t1: Option<CaptionTone>,
    c2: Option<string>, l2: Option<CaptionLength>, t2: Option<CaptionTone>)
    ensures SystemMessage(c1, l1, t1) == SystemMessage(c2, l2, t2) <==> Normalize(c1, l1, t1) == Normalize(c2, l2, t2)
  {
    SystemMessageRoundTrip(c1, l1, t1);
    SystemMessageRoundTrip(c2, l2, t2);
    if Normalize(c1, l1, t1) == Normalize(c2, l2, t2) {
      assert ContextPart(c1) == ContextPart(c2);
    }
  }

  /** An absent length reads as Medium. */
  lemma DefaultLengthIsMedium(context: Option<string>, tone: Option<CaptionTone>)
    ensures SystemMessage(context, None, tone) == SystemMessage(context, Some(Medium), tone)
  {
  }

  /** The message states a tone exactly when one is given, and a context exactly when a
      non-empty one is given; the length is always stated. */
  lemma {:induction false} ClausesPresentIffGiven(context: Option<string>, length: Option<CaptionLength>, tone: Option<CaptionTone>)
    ensures ParseSystemMessage(SystemMessage(context, length, tone)).Some?
    ensures var o := ParseSystemMessage(SystemMessage(context, length, tone)).value;
      && (o.tone.Some? <==> tone.Some?)
      && (o.context.Some? <==> context.Some? && context.value != "")
      && (length.Some? ==> o.length == length.value)
      && (length.None? ==> o.length == Medium)
  {
    SystemMessageRoundTrip(context, length, tone);
  }
}
