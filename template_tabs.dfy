/**
 * The earlier registration page script (`templates/register.js`): a tab
 * index moved by the back and next buttons, with no validation and no
 * submit button. The step functions are the ones of module RegisterForm.
 */
module TemplateTabs {
  import RegisterForm

  class TabWizard {
    var activeTab: int

    predicate Valid()
      reads this
    {
      0 <= activeTab <= 2
    }

    /** `let activeTab = 0`. */
    constructor()
      ensures Valid() && activeTab == 0
    {
      activeTab := 0;
    }

    /** The back button: one tab back unless already at the first. */
    method Back()
      requires Valid()
      modifies this
      ensures Valid() && activeTab == RegisterForm.BackTab(old(activeTab))
    {
      if activeTab > 0 {
        activeTab := activeTab - 1;
      }
    }

    /** The next button: one tab forward unless already at the last. */
    method Next()
      requires Valid()
      modifies this
      ensures Valid() && activeTab == RegisterForm.NextTab(old(activeTab))
    {
      if activeTab < 2 {
        activeTab := activeTab + 1;
      }
    }
  }

  /** From tab 0 or 1, next followed by back returns to the starting tab. */
  method NextThenBack(w: TabWizard)
    requires w.Valid() && w.activeTab < 2
    modifies w
    ensures w.Valid() && w.activeTab == old(w.activeTab)
  {
    w.Next();
    w.Back();
    RegisterForm.BackUndoesNext(old(w.activeTab));
  }

  /** Clicks, `true` for next and `false` for back, applied in order to a tab index. */
  function Clicks(tab: int, clicks: seq<bool>): (r: int)
    requires 0 <= tab <= 2
    ensures 0 <= r <= 2
    decreases |clicks|
  {
    if clicks == [] then tab
    else Clicks(if clicks[0] then RegisterForm.NextTab(tab) else RegisterForm.BackTab(tab), clicks[1..])
  }

  /** Two nexts from anywhere reach the last tab, and two backs the first. */
  lemma TwoClicksReachEnds(tab: int)
    requires 0 <= tab <= 2
    ensures Clicks(tab, [true, true]) == 2
    ensures Clicks(tab, [false, false]) == 0
  {
    assert [true, true][1..] == [true];
    assert [false, false][1..] == [false];
  }

  /** Replaying a run of clicks on the wizard ends where `Clicks` says. */
  method Replay(w: TabWizard, clicks: seq<bool>)
    requires w.Valid()
    modifies w
    ensures w.Valid() && w.activeTab == Clicks(old(w.activeTab), clicks)
  {
    var i := 0;
    while i < |clicks|
      invariant 0 <= i <= |clicks| && w.Valid()
      invariant Clicks(old(w.activeTab), clicks) == Clicks(w.activeTab, clicks[i..])
    {
      assert clicks[i..][1..] == clicks[i + 1..];
      if clicks[i] {
        w.Next();
      } else {
        w.Back();
      }
      i := i + 1;
    }
  }
}
