/** The breadcrumb trail: for each item, a link or a plain span, emphasised
    or muted, and whether a separator follows it. */
module Breadcrumb {
  import opened Wrappers

  datatype BreadcrumbItem = BreadcrumbItem(text: string, href: Option<string>)

  /** How an item's text is shown: a link to a path, the emphasised span of
      the last item, or a muted span. */
  datatype Look = Link(to: string) | Emphasised | Muted

  datatype RenderedItem = RenderedItem(text: string, look: Look, separator: bool)

  /** An `href` that is present and not the empty string. */
  predicate HasHref(item: BreadcrumbItem) {
    item.href.Some? && item.href.value != ""
  }

  function RenderItem(item: BreadcrumbItem, isLast: bool): (r: RenderedItem)
    ensures r.text == item.text
    ensures r.look.Link? <==> HasHref(item) && !isLast
    ensures r.look.Link? ==> item.href == Some(r.look.to)
    ensures r.look == Emphasised <==> isLast
    ensures r.separator <==> !isLast
  {
    var look := if HasHref(item) && !isLast then Link(item.href.value)
                else if isLast then Emphasised
                else Muted;
    RenderedItem(item.text, look, !isLast)
  }

  /** `Breadcrumb`: the items in order, the last one marked as such. */
  function Render(items: seq<BreadcrumbItem>): (r: seq<RenderedItem>)
    ensures |r| == |items|
    ensures forall k :: 0 <= k < |r| ==> r[k] == RenderItem(items[k], k == |items| - 1)
  {
    seq(|items|, k requires 0 <= k < |items| => RenderItem(items[k], k == |items| - 1))
  }

  /** Item by item: text unchanged; a link exactly when it has an href and
      is not last; the last item emphasised even with an href; any other
      item a muted span. */
  lemma RenderPlan(items: seq<BreadcrumbItem>, k: int)
    requires 0 <= k < |items|
    ensures Render(items)[k].text == items[k].text
    ensures Render(items)[k].look.Link? <==> HasHref(items[k]) && k < |items| - 1
    ensures k == |items| - 1 ==> Render(items)[k].look == Emphasised
    ensures k < |items| - 1 && !HasHref(items[k]) ==> Render(items)[k].look == Muted
  {}

  /** How many rendered items are followed by a separator. */
  function SeparatorCount(rs: seq<RenderedItem>): (n: nat)
    ensures n <= |rs|
    ensures n == 0 <==> forall k :: 0 <= k < |rs| ==> !rs[k].separator
    ensures n == |rs| <==> forall k :: 0 <= k < |rs| ==> rs[k].separator
  {
    if rs == [] then 0 else (if rs[0].separator then 1 else 0) + SeparatorCount(rs[1..])
  }

  /** Separators sit between items: n items give n - 1 of them, and no
      items give none. */
  lemma SeparatorsBetween(items: seq<BreadcrumbItem>)
    ensures SeparatorCount(Render(items)) == if items == [] then 0 else |items| - 1
  {
    SeparatorsAllButLast(Render(items));
  }

  lemma {:induction false} SeparatorsAllButLast(rs: seq<RenderedItem>)
    requires forall k :: 0 <= k < |rs| ==> (rs[k].separator <==> k != |rs| - 1)
    ensures SeparatorCount(rs) == if rs == [] then 0 else |rs| - 1
  {
    if rs != [] {
      assert forall k :: 0 <= k < |rs| - 1 ==> rs[1..][k] == rs[k + 1];
      SeparatorsAllButLast(rs[1..]);
    }
  }
}
