/** Markup shared by the dynamic blocks' `render_block` functions: the class
    name with its alignment suffix, the `<template>` a variant renders to, and
    the element a parent block renders after its inner content. Each comes with
    a reader that takes the markup apart again. */
module BlockMarkup {
  import opened Common

  /** The block attributes the render functions read; each may be absent. */
  datatype Attributes = Attributes(
    clientId: Option<string>,
    className: Option<string>,
    align: Option<string>,
    parentId: Option<string>,
    audience: Option<int>)

  /** `className ?? ''` followed by `align<align>` unless the alignment
      (`align ?? 'none'`) is empty in PHP's sense. */
  function ClassName(className: Option<string>, align: Option<string>): string {
    var a := align.GetOr("none");
    if !PhpFalsy(a) then className.GetOr("") + "align" + a else className.GetOr("")
  }

  /** The default alignment appends `alignnone` with no separator; an empty
      alignment (or "0") leaves the class as given; any other appends `align<a>`. */
  lemma ClassNameMeans(className: Option<string>, align: Option<string>)
    ensures align.None? ==> ClassName(className, align) == className.GetOr("") + "alignnone"
    ensures align == Some("") || align == Some("0") ==> ClassName(className, align) == className.GetOr("")
    ensures align.Some? && !PhpFalsy(align.value) ==>
      ClassName(className, align) == className.GetOr("") + "align" + align.value
  {
  }

  predicate IsPrefix(p: string, s: string) {
    |p| <= |s| && s[..|p|] == p
  }

  predicate IsSuffix(p: string, s: string) {
    |p| <= |s| && s[|s| - |p|..] == p
  }

  /** Length of the longest prefix of `s` without a double quote. */
  function UpToQuote(s: string): (n: nat)
    ensures n <= |s|
    decreases |s|
  {
    if s == [] || s[0] == '"' then 0 else 1 + UpToQuote(s[1..])
  }

  /** Length of the longest suffix of `s` without a double quote. */
  function QuoteFreeSuffix(s: string): (n: nat)
    ensures n <= |s|
    decreases |s|
  {
    if s == [] || s[|s| - 1] == '"' then 0 else 1 + QuoteFreeSuffix(s[..|s| - 1])
  }

  lemma {:induction false} UpToQuoteExact(t: string, rest: string)
    requires '"' !in t && rest != [] && rest[0] == '"'
    ensures UpToQuote(t + rest) == |t|
    decreases |t|
  {
    if t != [] {
      assert (t + rest)[1..] == t[1..] + rest;
      UpToQuoteExact(t[1..], rest);
    }
  }

  lemma {:induction false} QuoteFreeSuffixExact(s: string, t: string)
    requires '"' !in t && s != [] && s[|s| - 1] == '"'
    ensures QuoteFreeSuffix(s + t) == |t|
    decreases |t|
  {
    if t != [] {
      assert (s + t)[..|s + t| - 1] == s + t[..|t| - 1];
      QuoteFreeSuffixExact(s, t[..|t| - 1]);
    }
  }

  /** Stripping a known prefix gives back the rest. */
  lemma StripPrefix(p: string, rest: string)
    ensures IsPrefix(p, p + rest) && (p + rest)[|p|..] == rest
  {
    assert (p + rest)[..|p|] == p;
  }

  /** Stripping a known suffix gives back the rest. */
  lemma StripSuffix(rest: string, p: string)
    ensures IsSuffix(p, rest + p) && (rest + p)[..|rest + p| - |p|] == rest
  {
    assert (rest + p)[|rest + p| - |p|..] == p;
  }

  const TEMPLATE_OPEN: string := "<template data-audience=\""
  const PARENT_ATTR: string := "\" data-parent-id=\""
  const TAG_END: string := "\">"
  const TEMPLATE_CLOSE: string := "</template>"

  /** `<template data-audience="%d" data-parent-id="%s">%s</template>`. */
  function Template(audience: int, parentId: string, inner: string): string {
    TEMPLATE_OPEN + (IntToString(audience) + (PARENT_ATTR + (parentId + (TAG_END + (inner + TEMPLATE_CLOSE)))))
  }

  datatype TemplateParts = TemplateParts(audience: int, parentId: string, inner: string)

  /** Reads the audience, the parent id and the inner content of a template,
      one piece at a time from the front. */
  function ParseTemplate(s: string): Option<TemplateParts> {
    if !IsPrefix(TEMPLATE_OPEN, s) then None else ParseAudience(s[|TEMPLATE_OPEN|..])
  }

  /** The audience runs up to the next double quote. */
  function ParseAudience(a: string): Option<TemplateParts> {
    var n := UpToQuote(a);
    var audience := ParseInt(a[..n]);
    if audience.None? then None else ParseParentAttr(audience.value, a[n..])
  }

  function ParseParentAttr(audience: int, b: string): Option<TemplateParts> {
    if !IsPrefix(PARENT_ATTR, b) then None else ParseParentId(audience, b[|PARENT_ATTR|..])
  }

  /** The parent id runs up to the next double quote. */
  function ParseParentId(audience: int, c: string): Option<TemplateParts> {
    var m := UpToQuote(c);
    ParseInner(audience, c[..m], c[m..])
  }

  /** What follows the parent id: the tag's end, the inner content and the
      closing tag. */
  function ParseInner(audience: int, parentId: string, d: string): Option<TemplateParts> {
    if !IsPrefix(TAG_END, d) then None
    else
      var e := d[|TAG_END|..];
      if !IsSuffix(TEMPLATE_CLOSE, e) then None
      else Some(TemplateParts(audience, parentId, e[..|e| - |TEMPLATE_CLOSE|]))
  }

  lemma NoQuoteInInt(i: int)
    ensures '"' !in IntToString(i)
  {
  }

  lemma ParseInnerRoundTrip(audience: int, parentId: string, inner: string)
    ensures ParseInner(audience, parentId, TAG_END + (inner + TEMPLATE_CLOSE))
      == Some(TemplateParts(audience, parentId, inner))
  {
    StripPrefix(TAG_END, inner + TEMPLATE_CLOSE);
    StripSuffix(inner, TEMPLATE_CLOSE);
  }

  lemma ParseParentIdRoundTrip(audience: int, parentId: string, inner: string)
    requires '"' !in parentId
    ensures ParseParentId(audience, parentId + (TAG_END + (inner + TEMPLATE_CLOSE)))
      == Some(TemplateParts(audience, parentId, inner))
  {
    var rest := TAG_END + (inner + TEMPLATE_CLOSE);
    assert rest[0] == TAG_END[0];
    UpToQuoteExact(parentId, rest);
    StripPrefix(parentId, rest);
    ParseInnerRoundTrip(audience, parentId, inner);
  }

  lemma ParseAudienceRoundTrip(audience: int, parentId: string, inner: string)
    requires '"' !in parentId
    ensures ParseAudience(IntToString(audience) + (PARENT_ATTR + (parentId + (TAG_END + (inner + TEMPLATE_CLOSE)))))
      == Some(TemplateParts(audience, parentId, inner))
  {
    var digits := IntToString(audience);
    var tail := parentId + (TAG_END + (inner + TEMPLATE_CLOSE));
    var rest := PARENT_ATTR + tail;
    assert rest[0] == PARENT_ATTR[0];
    NoQuoteInInt(audience);
    UpToQuoteExact(digits, rest);
    StripPrefix(digits, rest);
    IntToStringRoundTrip(audience);
    StripPrefix(PARENT_ATTR, tail);
    ParseParentIdRoundTrip(audience, parentId, inner);
  }

  /** The template reads back as the audience, parent id and inner content it
      was rendered from, for any parent id without a double quote. */
  lemma TemplateRoundTrip(audience: int, parentId: string, inner: string)
    requires '"' !in parentId
    ensures ParseTemplate(Template(audience, parentId, inner)) == Some(TemplateParts(audience, parentId, inner))
  {
    StripPrefix(TEMPLATE_OPEN, IntToString(audience) + (PARENT_ATTR + (parentId + (TAG_END + (inner + TEMPLATE_CLOSE)))));
    ParseAudienceRoundTrip(audience, parentId, inner);
  }

  const CLASS_ATTR: string := " class=\""
  const CLIENT_ATTR: string := "\" client-id=\""

  /** `<tag class="`. */
  function OpenTag(tag: string): string {
    "<" + tag + CLASS_ATTR
  }

  /** The inner content followed by `<tag class="C" client-id="ID"` and `close`. */
  function Element(inner: string, tag: string, className: string, clientId: string, close: string): string {
    inner + OpenTag(tag) + className + CLIENT_ATTR + clientId + close
  }

  datatype ElementParts = ElementParts(inner: string, className: string, clientId: string)

  /** Reads an element back from its end: the client id and the class are the
      quote-free runs before the closing text and before ` client-id="`. */
  function ParseElement(s: string, tag: string, close: string): Option<ElementParts> {
    if !IsSuffix(close, s) then None else ParseClientId(s[..|s| - |close|], tag)
  }

  function ParseClientId(t: string, tag: string): Option<ElementParts> {
    var k := QuoteFreeSuffix(t);
    ParseClientAttr(t[..|t| - k], t[|t| - k..], tag)
  }

  function ParseClientAttr(u: string, clientId: string, tag: string): Option<ElementParts> {
    if !IsSuffix(CLIENT_ATTR, u) then None else ParseClass(u[..|u| - |CLIENT_ATTR|], clientId, tag)
  }

  function ParseClass(v: string, clientId: string, tag: string): Option<ElementParts> {
    var k := QuoteFreeSuffix(v);
    ParseOpenTag(v[..|v| - k], v[|v| - k..], clientId, tag)
  }

  function ParseOpenTag(w: string, className: string, clientId: string, tag: string): Option<ElementParts> {
    var open := OpenTag(tag);
    if !IsSuffix(open, w) then None else Some(ElementParts(w[..|w| - |open|], className, clientId))
  }

  lemma ParseClassRoundTrip(inner: string, tag: string, className: string, clientId: string)
    requires '"' !in className
    ensures ParseClass(inner + OpenTag(tag) + className, clientId, tag) == Some(ElementParts(inner, className, clientId))
  {
    var w := inner + OpenTag(tag);
    assert w[|w| - 1] == CLASS_ATTR[|CLASS_ATTR| - 1];
    QuoteFreeSuffixExact(w, className);
    StripSuffix(w, className);
    var v := w + className;
    assert v[|v| - |className|..] == className;
    StripSuffix(inner, OpenTag(tag));
  }

  lemma ParseClientIdRoundTrip(inner: string, tag: string, className: string, clientId: string)
    requires '"' !in className && '"' !in clientId
    ensures ParseClientId(inner + OpenTag(tag) + className + CLIENT_ATTR + clientId, tag)
      == Some(ElementParts(inner, className, clientId))
  {
    var v := inner + OpenTag(tag) + className;
    var u := v + CLIENT_ATTR;
    assert u[|u| - 1] == CLIENT_ATTR[|CLIENT_ATTR| - 1];
    QuoteFreeSuffixExact(u, clientId);
    StripSuffix(u, clientId);
    var t := u + clientId;
    assert t[|t| - |clientId|..] == clientId;
    StripSuffix(v, CLIENT_ATTR);
    ParseClassRoundTrip(inner, tag, className, clientId);
  }

  /** The element reads back as the inner content, class and client id it was
      rendered from, whatever the inner content holds, when the class and the
      id have no double quote. */
  lemma ElementRoundTrip(inner: string, tag: string, className: string, clientId: string, close: string)
    requires '"' !in className && '"' !in clientId
    ensures ParseElement(Element(inner, tag, className, clientId, close), tag, close)
      == Some(ElementParts(inner, className, clientId))
  {
    StripSuffix(inner + OpenTag(tag) + className + CLIENT_ATTR + clientId, close);
    ParseClientIdRoundTrip(inner, tag, className, clientId);
  }
}
