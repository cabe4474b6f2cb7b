/** The landing page's two pieces of interaction state: the open FAQ entry
    and the flip cards, which flip on hover and can be locked face-down by a
    click. */
module Home {
  import opened Wrappers

  /** `toggle(i)`: the clicked entry closes if it was open and opens (closing
      any other) if it was not. */
  function Toggled(selected: Option<int>, i: int): (r: Option<int>)
    ensures r == Some(i) <==> selected != Some(i)
    ensures r.Some? ==> r == Some(i)
  {
    if selected == Some(i) then None else Some(i)
  }

  /** Two clicks on the same entry restore the previous state when that
      entry was open or nothing was. */
  lemma ToggleTwice(selected: Option<int>, i: int)
    requires selected == Some(i) || selected.None?
    ensures Toggled(Toggled(selected, i), i) == selected
  {
  }

  class HomeState {
    var selected: Option<int>
    var activeIndex: Option<int>
    var locked: Option<int>

    /** At most one FAQ entry is open: `selected` names it. */
    predicate IsOpen(i: int)
      reads this
    {
      selected == Some(i)
    }

    /** A card shows its back exactly when it is the active index. */
    predicate IsFlipped(index: int)
      reads this
    {
      activeIndex == Some(index)
    }

    constructor ()
      ensures selected.None? && activeIndex.None? && locked.None?
    {
      selected := None;
      activeIndex := None;
      locked := None;
    }

    method Toggle(i: int)
      modifies this`selected
      ensures selected == Toggled(old(selected), i)
      ensures IsOpen(i) <==> !old(IsOpen(i))
      ensures forall j | j != i :: !IsOpen(j)
    {
      selected := Toggled(selected, i);
    }

    /** `handleHover(index, value)`: entering (`value`) or leaving a card
        other than the locked one makes it the only flipped card or flips
        nothing, even while another card is locked; hover on the locked card
        changes nothing. */
    method Hover(index: int, value: bool)
      modifies this`activeIndex
      ensures old(locked) == Some(index) ==> activeIndex == old(activeIndex)
      ensures old(locked) != Some(index) ==> activeIndex == if value then Some(index) else None
    {
      if locked != Some(index) {
        activeIndex := if value then Some(index) else None;
      }
    }

    /** `handleLockToggle(index)`: clicking the locked card releases it and
        flips it back; clicking any other card locks that one instead and
        flips it. */
    method LockToggle(index: int)
      modifies this`locked, this`activeIndex
      ensures old(locked) == Some(index) ==> locked.None? && activeIndex.None?
      ensures old(locked) != Some(index) ==> locked == Some(index) && activeIndex == Some(index)
      ensures locked.Some? ==> IsFlipped(locked.value)
    {
      if locked == Some(index) {
        locked := None;
        activeIndex := None;
      } else {
        locked := Some(index);
        activeIndex := Some(index);
      }
    }
  }

  /** After a lock, mouse movement over the locked card keeps it flipped,
      but leaving another card flips the locked one back although it stays
      locked. */
  method LockedCardUnflipsScenario() returns (h: HomeState)
    ensures h.locked == Some(0) && !h.IsFlipped(0)
  {
    h := new HomeState();
    h.LockToggle(0);
    h.Hover(0, false);
    assert h.IsFlipped(0);
    h.Hover(1, true);
    h.Hover(1, false);
  }
}
