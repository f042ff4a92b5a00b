/** The screen's state and its event handlers. Each handler is one atomic
    step on the five state cells. */
module Planner {
  import opened Text
  import opened TaskList

  class App {
    /** The task list. */
    var items: seq<Item>
    /** The id whose text the edit dialog is changing; `None` is `null`. */
    var editingItem: Option<int>
    /** Whether the edit dialog is shown. */
    var modalVisible: bool
    /** The one text buffer behind both the add field and the edit field. */
    var newItemText: string
    /** The display mode. */
    var darkMode: bool

    /** The dialog is shown exactly while an edit target is set. */
    predicate Valid()
      reads this
    {
      modalVisible == editingItem.Some?
    }

    /** The initial state: the three starting entries, no edit in progress,
        an empty buffer, and the display mode taken from the host's reported
        colour scheme (`'dark'` or anything else). */
    constructor (colorScheme: string)
      ensures Valid()
      ensures items == InitialItems()
      ensures editingItem == None && !modalVisible && newItemText == ""
      ensures darkMode == (colorScheme == "dark")
    {
      items := InitialItems();
      editingItem := None;
      modalVisible := false;
      newItemText := "";
      darkMode := colorScheme == "dark";
    }

    /** Flips `checked` on every entry carrying `itemId`; nothing else moves. */
    method ToggleCheck(itemId: int)
      modifies this
      ensures old(Valid()) ==> Valid()
      ensures items == Toggled(old(items), itemId)
      ensures editingItem == old(editingItem) && modalVisible == old(modalVisible)
      ensures newItemText == old(newItemText) && darkMode == old(darkMode)
    {
      items := Toggled(items, itemId);
    }

    /** Opens the edit dialog on `itemId`, loading the buffer with the text of
        the first entry carrying that id (or `''`); this overwrites whatever
        was typed into the add field. */
    method OpenModal(itemId: int)
      modifies this
      ensures Valid()
      ensures editingItem == Some(itemId) && modalVisible
      ensures newItemText == TextOf(items, itemId)
      ensures items == old(items) && darkMode == old(darkMode)
    {
      editingItem := Some(itemId);
      newItemText := TextOf(items, itemId);
      modalVisible := true;
    }

    /** Closes the edit dialog and empties the buffer. */
    method CloseModal()
      modifies this
      ensures Valid()
      ensures editingItem == None && !modalVisible && newItemText == ""
      ensures items == old(items) && darkMode == old(darkMode)
    {
      editingItem := None;
      modalVisible := false;
      newItemText := "";
    }

    /** Commits the edit: a non-blank buffer becomes, verbatim, the text of
        every entry carrying the edit target; a blank one is discarded. Either
        way the dialog ends closed with an empty buffer. */
    method UpdateItemText()
      modifies this
      ensures Valid()
      ensures Trim(old(newItemText)) != "" ==>
        items == Retexted(old(items), old(editingItem), old(newItemText))
      ensures Trim(old(newItemText)) == "" ==> items == old(items)
      ensures editingItem == None && !modalVisible && newItemText == ""
      ensures darkMode == old(darkMode)
    {
      if Trim(newItemText) != "" {
        items := Retexted(items, editingItem, newItemText);
        newItemText := "";
      }
      CloseModal();
    }

    /** Appends the buffer, verbatim and unchecked, as a new entry whose id is
        the old length plus one, and empties the buffer; a blank buffer
        changes nothing at all. */
    method AddItem()
      modifies this
      ensures old(Valid()) ==> Valid()
      ensures Trim(old(newItemText)) != "" ==>
        items == old(items) + [Item(|old(items)| + 1, old(newItemText), false)] &&
        newItemText == ""
      ensures Trim(old(newItemText)) == "" ==>
        items == old(items) && newItemText == old(newItemText)
      ensures editingItem == old(editingItem) && modalVisible == old(modalVisible)
      ensures darkMode == old(darkMode)
    {
      if Trim(newItemText) != "" {
        var newItem := Item(|items| + 1, newItemText, false);
        items := items + [newItem];
        newItemText := "";
      }
    }

    /** Drops every checked entry, keeping the rest in order. */
    method ClearCompleted()
      modifies this
      ensures old(Valid()) ==> Valid()
      ensures items == Uncompleted(old(items))
      ensures editingItem == old(editingItem) && modalVisible == old(modalVisible)
      ensures newItemText == old(newItemText) && darkMode == old(darkMode)
    {
      items := Uncompleted(items);
    }

    /** Flips the display mode and nothing else. */
    method ToggleDarkMode()
      modifies this
      ensures old(Valid()) ==> Valid()
      ensures darkMode == !old(darkMode)
      ensures items == old(items) && editingItem == old(editingItem)
      ensures modalVisible == old(modalVisible) && newItemText == old(newItemText)
    {
      darkMode := !darkMode;
    }

    /** What either text field does on every keystroke: the buffer becomes the
        field's text, and nothing else changes. */
    method SetNewItemText(text: string)
      modifies this
      ensures old(Valid()) ==> Valid()
      ensures newItemText == text
      ensures items == old(items) && editingItem == old(editingItem)
      ensures modalVisible == old(modalVisible) && darkMode == old(darkMode)
    {
      newItemText := text;
    }
  }
}
