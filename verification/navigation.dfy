/**
  The pagination bar of the catalog view: a "previous" arrow, one numbered
  button per page, and a "next" arrow. Pressing a control asks for a page;
  a disabled control cannot be pressed.
 */
module Navigation {

  datatype Control = Previous | Numbered(page: int) | Next

  /** A numbered button as rendered: its page and whether it is highlighted as the current one. */
  datatype PageButton = PageButton(page: int, active: bool)

  /** `Array.from({ length: total }, (_, index) => index + 1)`: the pages 1 to `total` in order. */
  function PageNumbers(total: nat): (r: seq<int>)
    ensures |r| == total
    ensures forall i :: 0 <= i < total ==> r[i] == i + 1
  {
    seq(total, i => i + 1)
  }

  /** The numbered buttons, each marked active when it is the current page. */
  function NumberedButtons(current: int, total: nat): (r: seq<PageButton>)
    ensures |r| == total
    ensures forall i :: 0 <= i < total ==> r[i].page == i + 1 && (r[i].active <==> r[i].page == current)
  {
    var pages := PageNumbers(total);
    seq(total, i requires 0 <= i < total => PageButton(pages[i], pages[i] == current))
  }

  /** How many of `buttons` are highlighted. */
  function ActiveCount(buttons: seq<PageButton>): nat {
    if |buttons| == 0 then 0
    else ActiveCount(buttons[..|buttons| - 1]) + (if buttons[|buttons| - 1].active then 1 else 0)
  }

  /** Exactly one button is highlighted when the current page is in range, and none otherwise. */
  lemma {:induction false} ExactlyOneActive(current: int, total: nat)
    ensures ActiveCount(NumberedButtons(current, total)) == if 1 <= current <= total then 1 else 0
  {
    if total > 0 {
      ExactlyOneActive(current, total - 1);
      assert NumberedButtons(current, total)[..total - 1] == NumberedButtons(current, total - 1);
    }
  }

  /** The controls the bar offers: both arrows and a numbered button for each page 1 to `total`. */
  predicate Offered(c: Control, total: nat) {
    match c
    case Numbered(p) => p in PageNumbers(total)
    case _ => true
  }

  /**
    "previous" is disabled on the first page, "next" on the last; numbered
    buttons never are. From a page in range, an arrow is disabled exactly when
    it would step outside `[1, total]`.
   */
  predicate Disabled(c: Control, current: int, total: nat)
    ensures c.Numbered? ==> !Disabled(c, current, total)
    ensures 1 <= current <= total && c.Previous? ==> (Disabled(c, current, total) <==> current - 1 < 1)
    ensures 1 <= current <= total && c.Next? ==> (Disabled(c, current, total) <==> current + 1 > total)
  {
    match c
    case Previous => current == 1
    case Next => current == total
    case Numbered(_) => false
  }

  /**
    The page after pressing `c` on `current`: the page the control asks for,
    or `current` unchanged when the control is disabled.
   */
  function Press(c: Control, current: int, total: nat): (r: int)
    ensures Disabled(c, current, total) ==> r == current
    ensures c.Previous? && current != 1 ==> r == current - 1
    ensures c.Next? && current != total ==> r == current + 1
    ensures c.Numbered? ==> r == c.page
  {
    if Disabled(c, current, total) then current
    else match c
      case Previous => current - 1
      case Next => current + 1
      case Numbered(p) => p
  }

  /** From any page in `[1, total]`, every control the bar offers lands in `[1, total]`. */
  lemma PressStaysInRange(c: Control, current: int, total: nat)
    requires 1 <= current <= total
    requires Offered(c, total)
    ensures 1 <= Press(c, current, total) <= total
  {
  }

  /** The arrows refuse to leave the range: "previous" on page 1 and "next" on the last page do nothing. */
  lemma BoundaryPressIsNoOp(current: int, total: nat)
    ensures current == 1 ==> Press(Previous, current, total) == current
    ensures current == total ==> Press(Next, current, total) == current
  {
  }
}
