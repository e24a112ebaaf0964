# Pagination page window

A model of the numbered pagination control in `src/components/ui/Pagination.tsx`.
Given the current page and the number of pages, `getPageNumbers` decides which page
numbers and `"..."` markers the bar lists, left to right:

- at most seven pages: every page, `1, 2, ..., total`;
- otherwise, tested in this order:
  - near the start (`current <= 3`): `1..5, ..., total`;
  - near the end (`current >= total - 2`): `1, ..., total-4..total`;
  - in the middle: `1, ..., current-1, current, current+1, ..., total`.

Around it, the component renders nothing when there are fewer than two pages. It renders a
button per page number and a static label per marker, and marks as current the button whose
number equals the current page. Previous and Next ask the caller (`onPageChange`) for
`current - 1` and `current + 1`, each only inside its guard and while the button is enabled.

Two modules:

- `PageWindow` (`PageWindow.dfy`). `Token` is a page number or the marker. `Window` is the
  specification of the list, shape by shape (`ShapeOf`). `GetPageNumbers` is the method that
  builds the list the way the source does: it appends to an accumulator, and `PushRange` holds
  the counted loops. Its postcondition equates the result with `Window`. The lemmas about
  `Window` cover length, endpoints, order, range, where markers may stand, and which pages are
  always listed.
- `PaginationControl` (`PaginationControl.dfy`). The render gate, the rendered entries with
  their "current" marking, and the page each press asks for.

On one page, `getPageNumbers` returns `[1]`, not an empty list. The control still shows
nothing, because the render gate at line 90 hides it (`Examples`, `RenderGate`). Page numbers
stay within `1..total` even when the current page is out of range: the near-end test catches
every `current >= total - 2` before the middle case is reached (`WindowIncreasingInRange`).

## Model

| member | source | states |
|---|---|---|
| `PageWindow.ShapeOf` | src/components/ui/Pagination.tsx:54-84 | the four shapes are selected by closed conditions that exclude one another and cover all inputs; the middle shape occurs exactly when total > 7 and 4 <= current <= total - 3 |
| `PageWindow.PushRange` | src/components/ui/Pagination.tsx:56-81 | each of the four counted push loops (lines 56-58, 63-65, 72-74, 79-81) appends exactly pages lo..hi, in order, to the accumulator (nothing when hi < lo) |
| `PageWindow.GetPageNumbers` | src/components/ui/Pagination.tsx:51-88 | the list built by pushes and loops is exactly the specified window, for every safe integer input (see the last line under Left out) |
| `PageWindow.FewPagesListsAll` | src/components/ui/Pagination.tsx:54-58 | with at most 7 pages the list is 1, 2, ..., total; it does not depend on the current page and is empty when total <= 0 |
| `PageWindow.WindowedShape` | src/components/ui/Pagination.tsx:60-84 | with more than 7 pages the list has exactly 7 entries, the first is page 1 and the last is the last page |
| `PageWindow.WindowIncreasingInRange` | src/components/ui/Pagination.tsx:61-84 | for any current page, page numbers strictly increase (so are distinct) and lie in 1..total |
| `PageWindow.WindowGapsMarked` | src/components/ui/Pagination.tsx:63-83 | every marker is neither first nor last and has page numbers on both sides that differ by at least 2, so markers never touch and each hides a page; adjacent page numbers differ by exactly 1, so no page is skipped without a marker |
| `PageWindow.CurrentAndNeighboursListed` | src/components/ui/Pagination.tsx:54-84 | when 1 <= current <= total, the current page, its in-range neighbours, page 1 and the last page are all listed |
| `PageWindow.Examples` | src/components/ui/Pagination.tsx:54-84 | (1,10) gives 1..5,...,10; (5,10) gives 1,...,4,5,6,...,10; (9,10) gives 1,...,6..10; (3,6) gives 1..6; (1,1) gives [1] |
| `PaginationControl.RenderGate` | src/components/ui/Pagination.tsx:90-137 | the control renders iff total >= 2, and then shows 2 to 7 entries, the first the button for page 1 and the last the button for the last page |
| `PaginationControl.NavigationInRange` | src/components/ui/Pagination.tsx:97-143 | Previous asks for current - 1 iff current > 1 and Next asks for current + 1 iff current < total (lines 139-143); with current in range both requests are in range, and each button is disabled iff a press asks for nothing |
| `PaginationControl.ButtonsInRangeAndDistinct` | src/components/ui/Pagination.tsx:121-123 | for any current page, every button asks for exactly its own number, which is in 1..total, and no two buttons share a number (the page keys are distinct) |
| `PaginationControl.CurrentMarking` | src/components/ui/Pagination.tsx:124-132 | a button is marked current iff its number is the current page; some button is marked iff 1 <= current <= total, and at most one is |

## Left out

- `src/components/PagesContent/ResultsContent/ResultsContent.tsx` is not part of this model. It holds animation timelines, router access and markup. Its one piece of logic defaults missing query parameters to empty strings.
- The hover and leave colour handlers (lines 31-48) and the fade-in on mount (lines 20-28) are left out. They are calls into the gsap animation library, with colours and float durations.
- CSS classes, aria attributes, icons and element structure are left out (lines 92-160). Only the "current" flag, the disabled flags and the pages pressed are modelled.
- React's re-render cycle and the caller's reaction to `onPageChange` are left out. A press is modelled as the `Option<int>` page it would pass to the callback.
- Page numbers are integers. The source's parameters are JavaScript `number`s, which could be fractional, `NaN` or infinite; such inputs are not modelled.
- PageWindow.GetPageNumbers: covers only safe integers (magnitude at most 2^53 - 1). The model's integers are unbounded, but JavaScript numbers hold integers exactly only up to 2^53. Above that, `i++` can stop advancing in the counted loops at lines 72-74 and 79-81, so the loop never ends. One example is current = 2^53 with total = 2^53 + 10 (the middle case). The other is current = total = 2^53 + 2 (the near-end case). The same holds for an infinite total. There the source pushes the same number until memory runs out, while `Window` still has 7 entries.
