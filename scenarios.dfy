/** Sequences of handler calls, as the screen would issue them, and what the
    handlers' contracts let a caller conclude about them. */
module Scenarios {
  import opened Text
  import opened TaskList
  import opened Planner

  /** Opening the edit dialog and cancelling it leaves the list as it was. */
  method OpenThenClose(app: App, itemId: int)
    modifies app
    ensures app.items == old(app.items) && app.darkMode == old(app.darkMode)
    ensures app.Valid() && app.editingItem == None && app.newItemText == ""
  {
    app.OpenModal(itemId);
    app.CloseModal();
  }

  /** Tapping the same entry twice restores the list. */
  method ToggleCheckTwice(app: App, itemId: int)
    modifies app
    ensures app.items == old(app.items)
  {
    app.ToggleCheck(itemId);
    app.ToggleCheck(itemId);
    ToggledTwice(old(app.items), itemId);
  }

  /** Pressing the mode switch twice restores the display mode. */
  method ToggleDarkModeTwice(app: App)
    modifies app
    ensures app.darkMode == old(app.darkMode)
  {
    app.ToggleDarkMode();
    app.ToggleDarkMode();
  }

  /** A second "Clear completed" has no further effect. */
  method ClearCompletedTwice(app: App)
    modifies app
    ensures app.items == Uncompleted(old(app.items))
  {
    app.ClearCompleted();
    app.ClearCompleted();
    UncompletedIdempotent(old(app.items));
  }

  /** Checking entry 1 of the initial list and clearing completed entries
      leaves entries 2 and 3. */
  lemma ClearAfterCheckingFirst()
    ensures Uncompleted(Toggled(InitialItems(), 1)) ==
      [Item(2, "Item 2", false), Item(3, "Item 3", false)]
  {
  }

  /** From the initial list, check entry 1, clear completed entries and add a
      task: the new entry is numbered 3 (the new length), the number the old
      third entry still carries. Returned are the ids of the resulting list. */
  method AddAfterClearDuplicatesId() returns (ids: seq<int>)
    ensures ids == [2, 3, 3]
  {
    var app := new App("light");
    app.ToggleCheck(1);
    app.ClearCompleted();
    ClearAfterCheckingFirst();
    assert |app.items| == 2 && app.items[1].id == 3;
    app.SetNewItemText("Item 4");
    TrimNotEmpty("Item 4", 0);
    app.AddItem();
    assert app.items[2].id == 3;
    ids := [app.items[0].id, app.items[1].id, app.items[2].id];
  }

  /** Text typed into the add field is lost when the edit dialog opens: the
      buffer then holds the edited entry's text, and after cancelling it is
      empty. Returned are the buffer after opening and after cancelling. */
  method OpenModalDiscardsDraft() returns (afterOpen: string, afterClose: string)
    ensures afterOpen == "Item 1" && afterClose == ""
  {
    var app := new App("light");
    app.SetNewItemText("draft");
    app.OpenModal(1);
    afterOpen := app.newItemText;
    app.CloseModal();
    afterClose := app.newItemText;
  }

  /** Opening the dialog on any id, typing a non-blank text and committing
      stores that text verbatim on every entry carrying the id, and nothing
      else in the list changes; the dialog ends closed. */
  method EditAny(app: App, itemId: int, text: string)
    requires exists i :: 0 <= i < |text| && !IsWhitespace(text[i])
    modifies app
    ensures app.items == Retexted(old(app.items), Some(itemId), text)
    ensures app.Valid() && !app.modalVisible && app.editingItem == None && app.newItemText == ""
    ensures app.darkMode == old(app.darkMode)
  {
    app.OpenModal(itemId);
    app.SetNewItemText(text);
    var i :| 0 <= i < |text| && !IsWhitespace(text[i]);
    TrimNotEmpty(text, i);
    app.UpdateItemText();
  }

  /** From the initial list, open entry 2, type a new text and commit: only
      entry 2's text changes, and the dialog ends closed. Returned are the
      resulting list and whether the dialog is still shown. */
  method EditSecondEntry() returns (items: seq<Item>, shown: bool)
    ensures items == [Item(1, "Item 1", false), Item(2, "Pay rent", false), Item(3, "Item 3", false)]
    ensures !shown
  {
    var app := new App("dark");
    app.OpenModal(2);
    assert app.newItemText == "Item 2";
    app.SetNewItemText("Pay rent");
    TrimNotEmpty("Pay rent", 0);
    app.UpdateItemText();
    items := app.items;
    shown := app.modalVisible;
  }

  /** A blank buffer adds nothing and is kept as typed. */
  method AddBlankIsIgnored(app: App)
    modifies app
    ensures app.items == old(app.items) && app.newItemText == "  \t"
  {
    app.SetNewItemText("  \t");
    assert Trim("  \t") == "" by {
      TrimEmptyIffBlank("  \t");
    }
    app.AddItem();
  }
}
