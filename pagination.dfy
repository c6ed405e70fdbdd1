/** The Prev / page-number / Next control under every list. */
module PaginationControl {

  datatype Kind = Prev | Page | Next

  /** A rendered button: what it is, which page a click requests, and how it is drawn. */
  datatype Button = Button(kind: Kind, target: int, disabled: bool, highlighted: bool)

  function PageButton(page: int, current: int): Button {
    Button(Page, page, false, page == current)
  }

  /** The buttons of `Pagination({currentPage, totalPages})`, left to right;
      nothing at all is rendered for one page or none. */
  function Render(current: int, total: int): (bs: seq<Button>)
    ensures total <= 1 <==> bs == []
    ensures total > 1 ==> |bs| == total + 2
    ensures forall i :: 0 <= i < |bs| ==> (bs[i].kind == Prev <==> i == 0)
    ensures forall i :: 0 <= i < |bs| ==> (bs[i].kind == Next <==> i == |bs| - 1)
  {
    if total <= 1 then []
    else
      [Button(Prev, current - 1, current == 1, false)]
      + seq(total, i requires 0 <= i < total => PageButton(i + 1, current))
      + [Button(Next, current + 1, current == total, false)]
  }

  /** The page buttons are 1 to totalPages in ascending order, always enabled,
      and the button for page k requests exactly k. */
  lemma PageButtonsAscending(current: int, total: int)
    requires total > 1
    ensures var bs := Render(current, total);
      forall i :: 1 <= i <= total ==> bs[i].kind == Page && bs[i].target == i && !bs[i].disabled
  {
  }

  /** Prev requests the page before the current one and is disabled exactly on page 1. */
  lemma PrevRule(current: int, total: int)
    requires total > 1
    ensures var bs := Render(current, total);
      bs[0].target == current - 1 && (bs[0].disabled <==> current == 1) && !bs[0].highlighted
  {
  }

  /** Next requests the page after the current one and is disabled exactly on the last page. */
  lemma NextRule(current: int, total: int)
    requires total > 1
    ensures var bs := Render(current, total);
      bs[total + 1].target == current + 1 && (bs[total + 1].disabled <==> current == total) && !bs[total + 1].highlighted
  {
  }

  /** On a page in range exactly one button is highlighted: the one for the current page. */
  lemma ExactlyOneHighlighted(current: int, total: int)
    requires 1 <= current <= total && total > 1
    ensures var bs := Render(current, total);
      && bs[current].highlighted && bs[current].kind == Page && bs[current].target == current
      && forall i :: 0 <= i < |bs| && bs[i].highlighted ==> i == current
  {
  }

  /** On a page out of range (a list that shrank under a filter) nothing is highlighted. */
  lemma NoHighlightOutOfRange(current: int, total: int)
    requires current < 1 || current > total
    ensures var bs := Render(current, total);
      forall i :: 0 <= i < |bs| ==> !bs[i].highlighted
  {
  }

  /** On a page in range every enabled button requests a page between 1 and totalPages. */
  lemma EnabledTargetsInRange(current: int, total: int)
    requires 1 <= current <= total
    ensures var bs := Render(current, total);
      forall i :: 0 <= i < |bs| && !bs[i].disabled ==> 1 <= bs[i].target <= total
  {
  }
}
