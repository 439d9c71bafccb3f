/** inc/features/blocks/experience/register.php: the experience block renders
    its inner content followed by a self-closing `<experience-block>` element. */
module ExperienceBlock {
  import opened Common
  import opened BlockMarkup

  const TAG: string := "experience-block"
  const CLOSE: string := "\" />"

  /** `render_block`: nothing for a falsy client id, otherwise the inner content
      followed by `<experience-block class="C" client-id="ID" />`. */
  function RenderBlock(attributes: Attributes, innerContent: Option<string>): string {
    if !PhpTruthy(attributes.clientId) then ""
    else
      Element(innerContent.GetOr(""), TAG, ClassName(attributes.className, attributes.align),
        attributes.clientId.value, CLOSE)
  }

  /** The output is empty exactly when the client id is missing, "" or "0";
      otherwise it reads back as the inner content (verbatim, "" when absent),
      the class with its alignment suffix, and the client id. */
  lemma RenderBlockMeans(attributes: Attributes, innerContent: Option<string>)
    requires attributes.clientId.Some? ==> '"' !in attributes.clientId.value
    requires '"' !in ClassName(attributes.className, attributes.align)
    ensures RenderBlock(attributes, innerContent) == "" <==> !PhpTruthy(attributes.clientId)
    ensures PhpTruthy(attributes.clientId) ==>
      ParseElement(RenderBlock(attributes, innerContent), TAG, CLOSE)
        == Some(ElementParts(innerContent.GetOr(""), ClassName(attributes.className, attributes.align),
             attributes.clientId.value))
  {
    if PhpTruthy(attributes.clientId) {
      ElementRoundTrip(innerContent.GetOr(""), TAG, ClassName(attributes.className, attributes.align),
        attributes.clientId.value, CLOSE);
    }
  }
}
