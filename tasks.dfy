/**
 * The to-do list as a value: entries keyed by their title, and the three
 * list expressions the App handlers are built from: `filter` (deleting),
 * `map` (toggling) and `find` (looking up the first entry with a title).
 */
module Tasks {

  datatype Option<+T> = None | Some(value: T)

  /** One entry of the list; `title` is the entry's `task` text. */
  datatype Task = Task(title: string, completed: bool)

  /** Index `i` holds the first entry titled `title`. */
  ghost predicate FirstMatch(list: seq<Task>, title: string, i: int) {
    0 <= i < |list| && list[i].title == title &&
    forall j :: 0 <= j < i ==> list[j].title != title
  }

  /** No entry of the list carries `title`. */
  predicate NoMatch(list: seq<Task>, title: string) {
    forall i :: 0 <= i < |list| ==> list[i].title != title
  }

  /**
   * The `filter` of the delete handler (src/App.js:62): every entry titled
   * `title` is dropped, every other entry is kept as often as it occurred.
   */
  function RemoveTitle(list: seq<Task>, title: string): (r: seq<Task>)
    ensures forall i :: 0 <= i < |r| ==> r[i].title != title
    ensures forall x :: multiset(r)[x] == if x.title == title then 0 else multiset(list)[x]
    ensures NoMatch(list, title) ==> r == list
  {
    if list == [] then []
    else
      assert list == [list[0]] + list[1..];
      if list[0].title == title then RemoveTitle(list[1..], title)
      else [list[0]] + RemoveTitle(list[1..], title)
  }

  /** Filtering distributes over concatenation, so the kept entries stay in their original order. */
  lemma {:induction false} RemoveTitleConcat(a: seq<Task>, b: seq<Task>, title: string)
    ensures RemoveTitle(a + b, title) == RemoveTitle(a, title) + RemoveTitle(b, title)
  {
    if a == [] {
      assert a + b == b;
    } else {
      assert (a + b)[1..] == a[1..] + b;
      RemoveTitleConcat(a[1..], b, title);
    }
  }

  /** A single entry survives the filter exactly when its title differs. */
  lemma RemoveTitleSingle(x: Task, title: string)
    ensures RemoveTitle([x], title) == if x.title == title then [] else [x]
  {
  }

  /** A second delete of the same title leaves the list as the first one left it. */
  lemma RemoveTitleTwice(list: seq<Task>, title: string)
    ensures RemoveTitle(RemoveTitle(list, title), title) == RemoveTitle(list, title)
  {
  }

  /**
   * The `map` of the complete handler (src/App.js:78): every entry titled
   * `title` has its flag flipped, every other entry is untouched.
   */
  function ToggleTitle(list: seq<Task>, title: string): (r: seq<Task>)
    ensures |r| == |list|
    ensures forall i :: 0 <= i < |list| && list[i].title == title ==>
              r[i] == Task(title, !list[i].completed)
    ensures forall i :: 0 <= i < |list| && list[i].title != title ==> r[i] == list[i]
    ensures NoMatch(list, title) ==> r == list
  {
    seq(|list|, i requires 0 <= i < |list| =>
      if list[i].title == title then list[i].(completed := !list[i].completed) else list[i])
  }

  /** Toggling the same title twice restores the list. */
  lemma ToggleTitleTwice(list: seq<Task>, title: string)
    ensures ToggleTitle(ToggleTitle(list, title), title) == list
  {
  }

  /** The `find` of the complete handler and the modal (src/App.js:72, :182): the first entry titled `title`, if any. */
  function Find(list: seq<Task>, title: string): (r: Option<Task>)
    ensures r.None? <==> NoMatch(list, title)
    ensures r.Some? ==> exists i :: FirstMatch(list, title, i) && list[i] == r.value
  {
    if list == [] then None
    else if list[0].title == title then
      assert FirstMatch(list, title, 0);
      Some(list[0])
    else
      var rest := Find(list[1..], title);
      if rest.Some? then
        assert exists i :: FirstMatch(list, title, i) && list[i] == rest.value by {
          var k :| FirstMatch(list[1..], title, k) && list[1..][k] == rest.value;
          assert FirstMatch(list, title, k + 1);
        }
        rest
      else None
  }

  /** There is at most one first match. */
  lemma FirstMatchUnique(list: seq<Task>, title: string, i: int, k: int)
    requires FirstMatch(list, title, i) && FirstMatch(list, title, k)
    ensures i == k
  {
  }

  /** After a toggle, the first entry titled `title` is the old first entry with its flag flipped. */
  lemma FindAfterToggle(list: seq<Task>, title: string)
    ensures Find(ToggleTitle(list, title), title) ==
            match Find(list, title)
            case None => None
            case Some(x) => Some(x.(completed := !x.completed))
  {
  }
}
