/** The task list itself: its entries and the pure list transformations the
    handlers apply to it (the `map`, `filter` and `find` calls). */
module TaskList {

  datatype Option<T> = None | Some(value: T)

  /** One entry of the list. Ids are not guaranteed to be distinct. */
  datatype Item = Item(id: int, text: string, checked: bool)

  /** The three entries the list starts with. */
  function InitialItems(): (r: seq<Item>)
    ensures |r| == 3
    ensures forall i :: 0 <= i < |r| ==> r[i].id == i + 1 && !r[i].checked
  {
    [Item(1, "Item 1", false), Item(2, "Item 2", false), Item(3, "Item 3", false)]
  }

  /** One step of the toggle map: flip `checked` when the id matches. */
  function Flip(item: Item, id: int): Item {
    if item.id == id then item.(checked := !item.checked) else item
  }

  /** `items` with `checked` flipped on every entry whose id is `id`; ids,
      texts, order and every other entry stay as they were. */
  function Toggled(items: seq<Item>, id: int): (r: seq<Item>)
    ensures |r| == |items|
    ensures forall i :: 0 <= i < |items| ==>
      r[i].id == items[i].id && r[i].text == items[i].text &&
      r[i].checked == (if items[i].id == id then !items[i].checked else items[i].checked)
  {
    if items == [] then [] else [Flip(items[0], id)] + Toggled(items[1..], id)
  }

  /** No entry carries `id`. */
  predicate Absent(items: seq<Item>, id: int) {
    forall i :: 0 <= i < |items| ==> items[i].id != id
  }

  /** Toggling an id no entry carries changes nothing. */
  lemma ToggledAbsent(items: seq<Item>, id: int)
    requires Absent(items, id)
    ensures Toggled(items, id) == items
  {
  }

  /** Toggling the same id twice restores the list. */
  lemma ToggledTwice(items: seq<Item>, id: int)
    ensures Toggled(Toggled(items, id), id) == items
  {
  }

  /** One step of the edit map: replace the text when `target` is the id. */
  function Retext(item: Item, target: Option<int>, text: string): Item {
    if target == Some(item.id) then item.(text := text) else item
  }

  /** `items` with `text` stored verbatim on every entry whose id is the edit
      target; with no target (`null`) no entry matches. Ids, flags, order and
      every other entry stay as they were. */
  function Retexted(items: seq<Item>, target: Option<int>, text: string): (r: seq<Item>)
    ensures |r| == |items|
    ensures forall i :: 0 <= i < |items| ==>
      r[i].id == items[i].id && r[i].checked == items[i].checked &&
      r[i].text == (if target == Some(items[i].id) then text else items[i].text)
  {
    if items == [] then [] else [Retext(items[0], target, text)] + Retexted(items[1..], target, text)
  }

  /** Editing with no target, or a target no entry carries, changes nothing. */
  lemma RetextedNoMatch(items: seq<Item>, target: Option<int>, text: string)
    requires target.None? || Absent(items, target.value)
    ensures Retexted(items, target, text) == items
  {
  }

  /** `Array.prototype.find` by id: the first entry carrying `id`, if any. */
  function FindById(items: seq<Item>, id: int): (r: Option<Item>)
    ensures r.None? <==> Absent(items, id)
    ensures r.Some? ==> (exists i :: 0 <= i < |items| && items[i] == r.value &&
                                     r.value.id == id && Absent(items[..i], id))
  {
    if items == [] then None
    else if items[0].id == id then Some(items[0])
    else
      var rest := FindById(items[1..], id);
      if rest.Some? then
        ghost var i :| 0 <= i < |items[1..]| && items[1..][i] == rest.value &&
          rest.value.id == id && Absent(items[1..][..i], id);
        assert items[i + 1] == rest.value;
        assert items[..i + 1] == [items[0]] + items[1..][..i];
        rest
      else rest
  }

  /** `find` on a concatenation looks in the second part only when the first
      part has no entry carrying `id`. */
  lemma {:induction false} FindByIdConcat(a: seq<Item>, b: seq<Item>, id: int)
    ensures FindById(a + b, id) == if Absent(a, id) then FindById(b, id) else FindById(a, id)
  {
    if a == [] {
      assert a + b == b;
    } else {
      assert (a + b)[1..] == a[1..] + b;
      FindByIdConcat(a[1..], b, id);
    }
  }

  /** The text the edit field is loaded with (`find(...)?.text || ''`): the
      text of the first entry carrying `id`, or the empty string. */
  function TextOf(items: seq<Item>, id: int): (r: string)
    ensures Absent(items, id) ==> r == ""
    ensures !Absent(items, id) ==> (exists i :: 0 <= i < |items| && items[i].id == id &&
                                                Absent(items[..i], id) && r == items[i].text)
  {
    match FindById(items, id)
    case None => ""
    case Some(item) => item.text
  }

  /** `filter(item => !item.checked)`: the unchecked entries. */
  function Uncompleted(items: seq<Item>): (r: seq<Item>)
    ensures |r| <= |items|
    ensures forall x :: x in r ==> x in items && !x.checked
    ensures forall x :: x in items && !x.checked ==> x in r
  {
    if items == [] then []
    else if items[0].checked then Uncompleted(items[1..])
    else [items[0]] + Uncompleted(items[1..])
  }

  /** The filter distributes over concatenation, so the kept entries appear in
      their original relative order. */
  lemma {:induction false} UncompletedConcat(a: seq<Item>, b: seq<Item>)
    ensures Uncompleted(a + b) == Uncompleted(a) + Uncompleted(b)
  {
    if a != [] {
      assert (a + b)[1..] == a[1..] + b;
      UncompletedConcat(a[1..], b);
    } else {
      assert a + b == b;
    }
  }

  /** No entry is checked. */
  predicate NoneChecked(items: seq<Item>) {
    forall i :: 0 <= i < |items| ==> !items[i].checked
  }

  /** The filter keeps every entry exactly when none is checked, and removes
      at least one otherwise. */
  lemma {:induction false} UncompletedKeepsAllIff(items: seq<Item>)
    ensures Uncompleted(items) == items <==> NoneChecked(items)
    ensures |Uncompleted(items)| == |items| <==> NoneChecked(items)
  {
    if items != [] {
      var rest := items[1..];
      UncompletedKeepsAllIff(rest);
      if items[0].checked {
        assert Uncompleted(items) == Uncompleted(rest);
        assert !NoneChecked(items);
      } else {
        assert Uncompleted(items) == [items[0]] + Uncompleted(rest);
        assert items == [items[0]] + rest;
        assert NoneChecked(items) <==> NoneChecked(rest) by {
          if NoneChecked(rest) {
            forall i | 0 <= i < |items| ensures !items[i].checked {
              if i > 0 { assert items[i] == rest[i - 1]; }
            }
          }
          if NoneChecked(items) {
            forall i | 0 <= i < |rest| ensures !rest[i].checked {
              assert rest[i] == items[i + 1];
            }
          }
        }
      }
    }
  }

  /** Clearing completed entries twice is the same as clearing them once. */
  lemma UncompletedIdempotent(items: seq<Item>)
    ensures Uncompleted(Uncompleted(items)) == Uncompleted(items)
  {
    UncompletedKeepsAllIff(Uncompleted(items));
  }
}
