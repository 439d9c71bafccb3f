/** inc/features/blocks/personalization/register.php: the personalization
    block renders its inner content (the variant templates) once per client id
    on a page, followed by a `<personalization-block>` element. The
    function-static list of client ids already rendered is a field. */
module PersonalizationBlock {
  import opened Common
  import opened BlockMarkup

  const TAG: string := "personalization-block"
  const CLOSE: string := "\"></personalization-block>"

  /** `%s<personalization-block class="%s" client-id="%s"></personalization-block>`. */
  function Markup(inner: string, className: string, clientId: string): string {
    Element(inner, TAG, className, clientId, CLOSE)
  }

  predicate NoDuplicates(ids: seq<string>) {
    forall i, j :: 0 <= i < j < |ids| ==> ids[i] != ids[j]
  }

  class Renderer {
    /** `static $client_ids`: client ids whose templates were already output. */
    var clientIds: seq<string>

    ghost predicate Valid()
      reads this
    {
      NoDuplicates(clientIds)
    }

    constructor ()
      ensures Valid() && clientIds == []
    {
      clientIds := [];
    }

    /** `render_block`: a falsy client id renders nothing; the first render of
        a client id outputs the inner content and records the id; later renders
        of it output the element alone. */
    method RenderBlock(attributes: Attributes, innerContent: Option<string>) returns (html: string)
      requires Valid()
      modifies this
      ensures Valid()
      ensures !PhpTruthy(attributes.clientId) ==> html == "" && clientIds == old(clientIds)
      ensures PhpTruthy(attributes.clientId) ==>
        var id := attributes.clientId.value;
        var className := ClassName(attributes.className, attributes.align);
        if id in old(clientIds) then
          html == Markup("", className, id) && clientIds == old(clientIds)
        else
          html == Markup(innerContent.GetOr(""), className, id) && clientIds == old(clientIds) + [id]
    {
      var clientId := attributes.clientId;
      var className := attributes.className.GetOr("");
      var align := attributes.align.GetOr("none");

      // Add alignment class.
      if !PhpFalsy(align) {
        className := className + "align" + align;
      }

      if !PhpTruthy(clientId) {
        return "";
      }

      var inner := innerContent.GetOr("");
      if clientId.value in clientIds {
        inner := "";
      } else {
        clientIds := clientIds + [clientId.value];
      }
      return Markup(inner, className, clientId.value);
    }
  }

  /** Two renders of the same client id: the first carries the inner content,
      the second only the element, and the id is recorded once. */
  method RenderTwice(attributes: Attributes, innerContent: string) returns (first: string, second: string)
    requires PhpTruthy(attributes.clientId)
    requires '"' !in attributes.clientId.value
    requires '"' !in ClassName(attributes.className, attributes.align)
    ensures var id := attributes.clientId.value;
      var className := ClassName(attributes.className, attributes.align);
      && ParseElement(first, TAG, CLOSE) == Some(ElementParts(innerContent, className, id))
      && ParseElement(second, TAG, CLOSE) == Some(ElementParts("", className, id))
  {
    var r := new Renderer();
    first := r.RenderBlock(attributes, Some(innerContent));
    second := r.RenderBlock(attributes, Some(innerContent));
    assert r.clientIds == [attributes.clientId.value];
    ElementRoundTrip(innerContent, TAG, ClassName(attributes.className, attributes.align), attributes.clientId.value, CLOSE);
    ElementRoundTrip("", TAG, ClassName(attributes.className, attributes.align), attributes.clientId.value, CLOSE);
  }
}
