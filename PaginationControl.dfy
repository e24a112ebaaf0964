/** The pagination control around the page window (the Pagination component
    of src/components/ui/Pagination.tsx): whether it renders at all, the
    buttons it renders, which of them is marked current, and the page each
    press asks the caller to change to. */
module PaginationControl {
  import opened PageWindow

  datatype Option<T> = None | Some(value: T)

  /** A rendered entry between Previous and Next: a numbered button, with
      its "current" marking, or the static "..." label. */
  datatype Item = Button(page: int, isCurrent: bool) | Gap

  /** The entry a token of the window renders as. */
  function ItemFor(t: Token, current: int): Item
  {
    match t
    case Page(p) => Button(p, p == current)
    case Ellipsis => Gap
  }

  /** The entries the control renders, or None when it renders nothing. */
  function Render(current: int, total: int): Option<seq<Item>>
  {
    if total <= 1 then None
    else
      var w := Window(current, total);
      Some(seq(|w|, k requires 0 <= k < |w| => ItemFor(w[k], current)))
  }

  /** Previous is disabled on the first page. */
  predicate PreviousDisabled(current: int)
  {
    current == 1
  }

  /** Next is disabled on the last page. */
  predicate NextDisabled(current: int, total: int)
  {
    current == total
  }

  /** The page a press of Previous asks for: none while the button is
      disabled, and none unless current > 1. The button exists only while
      the control renders (Render(current, total).Some?, that is total >= 2);
      outside that, a press describes no event of the component. */
  function PressPrevious(current: int): Option<int>
  {
    if PreviousDisabled(current) then None
    else if current > 1 then Some(current - 1)
    else None
  }

  /** The page a press of Next asks for: none while the button is disabled,
      and none unless current < total. As for Previous, this describes an
      event only while the control renders (total >= 2). */
  function PressNext(current: int, total: int): Option<int>
  {
    if NextDisabled(current, total) then None
    else if current < total then Some(current + 1)
    else None
  }

  /** The page a press on a rendered entry asks for: a numbered button asks
      for its own number; the "..." label cannot be pressed. */
  function PressItem(item: Item): Option<int>
  {
    match item
    case Button(p, _) => Some(p)
    case Gap => None
  }

  /** The control renders exactly when there are at least two pages, and then
      shows between two and seven entries, the first and last of them the
      buttons for page 1 and the last page. */
  lemma RenderGate(current: int, total: int)
    ensures Render(current, total).Some? <==> total >= 2
    ensures Render(current, total).Some? ==>
      var items := Render(current, total).value;
      && 2 <= |items| <= WindowSize
      && items[0].Button? && items[0].page == 1
      && items[|items| - 1].Button? && items[|items| - 1].page == total
  {
  }

  /** Previous asks for current - 1 exactly when current > 1, and Next for
      current + 1 exactly when current < total; with the current page in
      range, what they ask for is in range too, and each button is disabled
      exactly when a press would ask for nothing. The statements hold for
      every input; they describe presses only when total >= 2, since
      otherwise the control, and so its buttons, are not rendered. */
  lemma NavigationInRange(current: int, total: int)
    ensures PressPrevious(current).Some? <==> current > 1
    ensures PressPrevious(current).Some? ==> PressPrevious(current).value == current - 1
    ensures PressNext(current, total).Some? <==> current < total
    ensures PressNext(current, total).Some? ==> PressNext(current, total).value == current + 1
    ensures 1 <= current <= total ==>
      && (PressPrevious(current).Some? ==> 1 <= PressPrevious(current).value <= total)
      && (PressNext(current, total).Some? ==> 1 <= PressNext(current, total).value <= total)
      && (PreviousDisabled(current) <==> PressPrevious(current).None?)
      && (NextDisabled(current, total) <==> PressNext(current, total).None?)
  {
  }

  /** Whatever the current page, every rendered button asks for its own
      number, which lies in 1..total, and no two buttons show the same
      number (so their page keys are distinct). */
  lemma ButtonsInRangeAndDistinct(current: int, total: int)
    requires Render(current, total).Some?
    ensures var items := Render(current, total).value;
      && (forall k :: 0 <= k < |items| && items[k].Button? ==>
            PressItem(items[k]) == Some(items[k].page) && 1 <= items[k].page <= total)
      && (forall i, j :: 0 <= i < j < |items| && items[i].Button? && items[j].Button? ==>
            items[i].page != items[j].page)
  {
  }

  /** A button is marked current exactly when its number is the current page;
      some button is so marked exactly when the current page is in range,
      and never more than one. */
  lemma CurrentMarking(current: int, total: int)
    requires Render(current, total).Some?
    ensures var items := Render(current, total).value;
      && (forall k :: 0 <= k < |items| && items[k].Button? ==>
            (items[k].isCurrent <==> items[k].page == current))
      && ((exists k :: 0 <= k < |items| && items[k].Button? && items[k].isCurrent) <==> 1 <= current <= total)
      && (forall i, j ::
            (0 <= i < |items| && 0 <= j < |items| && items[i].Button? && items[i].isCurrent &&
             items[j].Button? && items[j].isCurrent) ==> i == j)
  {
    var w := Window(current, total);
    var items := Render(current, total).value;
    assert forall k :: 0 <= k < |items| ==> items[k] == ItemFor(w[k], current);
    WindowIncreasingInRange(current, total);
    if 1 <= current <= total {
      CurrentAndNeighboursListed(current, total);
      var k :| 0 <= k < |w| && w[k] == Page(current);
      assert items[k].Button? && items[k].isCurrent;
    }
  }
}
