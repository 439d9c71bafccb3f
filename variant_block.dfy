/** inc/features/blocks/variant/register.php: an experience variant renders its inner
    content inside a `<template>` that carries its audience and its parent's
    client id. */
module VariantBlock {
  import opened Common
  import opened BlockMarkup

  /** `render_block`: nothing for a falsy parent id; otherwise the template,
      with a missing audience rendered as 0. */
  function RenderBlock(attributes: Attributes, innerContent: Option<string>): string {
    if !PhpTruthy(attributes.parentId) then ""
    else Template(attributes.audience.GetOr(0), attributes.parentId.value, innerContent.GetOr(""))
  }

  /** The output is empty exactly when the parent id is missing, "" or "0";
      otherwise it reads back as the audience (0 when absent), the parent id and
      the inner content, verbatim. */
  lemma RenderBlockMeans(attributes: Attributes, innerContent: Option<string>)
    requires attributes.parentId.Some? ==> '"' !in attributes.parentId.value
    ensures RenderBlock(attributes, innerContent) == "" <==> !PhpTruthy(attributes.parentId)
    ensures PhpTruthy(attributes.parentId) ==>
      ParseTemplate(RenderBlock(attributes, innerContent))
        == Some(TemplateParts(attributes.audience.GetOr(0), attributes.parentId.value, innerContent.GetOr("")))
  {
    if PhpTruthy(attributes.parentId) {
      TemplateRoundTrip(attributes.audience.GetOr(0), attributes.parentId.value, innerContent.GetOr(""));
    }
  }
}
