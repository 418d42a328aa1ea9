/**
 * The `App` component of the to-do widget: its state fields and the seven
 * handlers that change them, each one an atomic step that reads the state
 * as it was when the handler started, plus the choice of what the
 * confirmation modal shows.
 */
module App {
  import opened Text
  import opened Tasks

  /** The notice shown above the list (`showMessage`): a kind and a text. */
  datatype Message = Message(kind: string, text: string)

  /** The notice `addTask` raises when the input holds no visible character. */
  const EmptyTaskNotice := Message("error", "Please enter a task before adding.")

  /**
   * What an open modal shows: the completion notice for a title (with its
   * "Ok" button, bound to closeModal) or the clear-all prompt (with its
   * "Yes" and "Cancel" buttons, bound to confirmClearAll and cancelClearAll).
   */
  datatype ModalContent = CompletionNotice(title: string, completed: bool) | ClearAllPrompt

  /** JavaScript truthiness of `completedTask`: both null and "" are falsy. */
  predicate Truthy(completedTask: Option<string>) {
    completedTask.Some? && completedTask.value != ""
  }

  /**
   * The modal's content as a function of the state: nothing while the modal
   * is hidden; the completion notice when `completedTask` is truthy, saying
   * "Completed" exactly when the first entry with that title is completed
   * ("Not Completed" when it is not, or when no entry has that title);
   * otherwise the clear-all prompt.
   */
  function ModalView(todoList: seq<Task>, showModal: bool, completedTask: Option<string>): (r: Option<ModalContent>)
    ensures r.None? <==> !showModal
    ensures r == Some(ClearAllPrompt) <==> showModal && !Truthy(completedTask)
    ensures r.Some? && r.value.CompletionNotice? ==>
              Truthy(completedTask) && r.value.title == completedTask.value &&
              (r.value.completed <==> exists i :: FirstMatch(todoList, r.value.title, i) && todoList[i].completed)
  {
    if !showModal then None
    else if Truthy(completedTask) then
      var title := completedTask.value;
      var found := Find(todoList, title);
      var completed := found.Some? && found.value.completed;
      assert completed <==> exists i :: FirstMatch(todoList, title, i) && todoList[i].completed by {
        if found.Some? {
          var k :| FirstMatch(todoList, title, k) && todoList[k] == found.value;
          forall i | FirstMatch(todoList, title, i) ensures i == k {
            FirstMatchUnique(todoList, title, i, k);
          }
        }
      }
      Some(CompletionNotice(title, completed))
    else Some(ClearAllPrompt)
  }

  /** Every entry of the list has a title with a visible character. */
  ghost predicate TitlesVisible(todoList: seq<Task>) {
    forall i :: 0 <= i < |todoList| ==> !IsBlank(todoList[i].title)
  }

  /** Appending an entry with a visible title keeps every title visible. */
  lemma AppendKeepsTitlesVisible(todoList: seq<Task>, entry: Task)
    requires TitlesVisible(todoList) && !IsBlank(entry.title)
    ensures TitlesVisible(todoList + [entry])
  {
    var added := todoList + [entry];
    forall i | 0 <= i < |added| ensures !IsBlank(added[i].title) {
      if i < |todoList| { assert added[i] == todoList[i]; }
    }
  }

  /** Deleting keeps every title visible: the kept entries all come from the old list. */
  lemma RemoveKeepsTitlesVisible(todoList: seq<Task>, title: string)
    requires TitlesVisible(todoList)
    ensures TitlesVisible(RemoveTitle(todoList, title))
  {
    var kept := RemoveTitle(todoList, title);
    forall i | 0 <= i < |kept| ensures !IsBlank(kept[i].title) {
      assert multiset(kept)[kept[i]] > 0;
      assert kept[i] in multiset(todoList);
    }
  }

  /** Toggling keeps every title, so it keeps every title visible. */
  lemma ToggleKeepsTitlesVisible(todoList: seq<Task>, title: string)
    requires TitlesVisible(todoList)
    ensures TitlesVisible(ToggleTitle(todoList, title))
  {
    var toggled := ToggleTitle(todoList, title);
    forall i | 0 <= i < |toggled| ensures !IsBlank(toggled[i].title) {
      assert toggled[i].title == todoList[i].title;
    }
  }

  /** A title that `find` locates in a list of visible titles is itself visible. */
  lemma FoundTitleVisible(todoList: seq<Task>, title: string)
    requires TitlesVisible(todoList) && Find(todoList, title).Some?
    ensures !IsBlank(title)
  {
    var k :| FirstMatch(todoList, title, k) && todoList[k] == Find(todoList, title).value;
    assert todoList[k].title == title;
  }

  /**
   * Completing a title whose first entry was not completed makes the modal,
   * once opened for that title, say "Completed".
   */
  lemma CompletionNoticeShown(todoList: seq<Task>, title: string)
    requires Find(todoList, title).Some? && !Find(todoList, title).value.completed
    requires !IsBlank(title)
    ensures ModalView(ToggleTitle(todoList, title), true, Some(title)) == Some(CompletionNotice(title, true))
  {
    FindAfterToggle(todoList, title);
    assert title != "" by {
      if title == "" { assert IsBlank(title); }
    }
  }

  class TodoApp {
    var todoList: seq<Task>
    var currentTask: string
    var showModal: bool
    var completedTask: Option<string>
    var showMessage: Option<Message>
    var showClearAll: bool

    /** No entry has a blank title, and neither has the task the completion modal names. */
    ghost predicate Valid()
      reads this
    {
      && TitlesVisible(todoList)
      && (completedTask.Some? ==> !IsBlank(completedTask.value))
    }

    /** What the modal currently shows. */
    function Modal(): Option<ModalContent>
      reads this
    {
      ModalView(todoList, showModal, completedTask)
    }

    /** In every valid state a set `completedTask` is truthy, so the modal never mistakes it for the clear-all prompt. */
    lemma CompletedTaskIsTruthy()
      requires Valid()
      ensures Truthy(completedTask) <==> completedTask.Some?
    {
    }

    /** The initial values of the `useState` hooks. */
    constructor ()
      ensures Valid()
      ensures todoList == [] && currentTask == "" && !showModal
      ensures completedTask == None && showMessage == None && !showClearAll
    {
      todoList := [];
      currentTask := "";
      showModal := false;
      completedTask := None;
      showMessage := None;
      showClearAll := false;
    }

    /** The input's `onChange` handler: stages the typed text. */
    method SetCurrentTask(text: string)
      requires Valid()
      modifies this
      ensures Valid()
      ensures currentTask == text
      ensures todoList == old(todoList) && showModal == old(showModal) && completedTask == old(completedTask)
      ensures showMessage == old(showMessage) && showClearAll == old(showClearAll)
    {
      currentTask := text;
    }

    /**
     * `addTask`: a blank input only raises the error notice; otherwise the
     * input becomes a new uncompleted entry at the end, the input and the
     * notice are cleared, and the clear-all button shows from two entries on.
     */
    method AddTask()
      requires Valid()
      modifies this
      ensures Valid()
      ensures showModal == old(showModal) && completedTask == old(completedTask)
      ensures IsBlank(old(currentTask)) ==>
                && todoList == old(todoList)
                && currentTask == old(currentTask)
                && showClearAll == old(showClearAll)
                && showMessage == Some(EmptyTaskNotice)
      ensures !IsBlank(old(currentTask)) ==>
                && |todoList| == |old(todoList)| + 1
                && todoList[..|old(todoList)|] == old(todoList)
                && todoList[|old(todoList)|] == Task(old(currentTask), false)
                && currentTask == ""
                && showMessage == None
                && showClearAll == (|todoList| >= 2)
    {
      var nonEmpty := TrimmedIsNonEmpty(currentTask);
      if nonEmpty {
        var length := |todoList|;
        var added := todoList + [Task(currentTask, false)];
        AppendKeepsTitlesVisible(todoList, Task(currentTask, false));
        todoList, currentTask, showMessage, showClearAll := added, "", None, length + 1 >= 2;
      } else {
        showMessage := Some(EmptyTaskNotice);
      }
    }

    /**
     * `deleteTask`: drops every entry with the given title; the clear-all
     * flag is computed from the length BEFORE the deletion.
     */
    method DeleteTask(title: string)
      requires Valid()
      modifies this
      ensures Valid()
      ensures todoList == RemoveTitle(old(todoList), title)
      ensures showClearAll == (|old(todoList)| > 4)
      ensures currentTask == old(currentTask) && showModal == old(showModal)
      ensures completedTask == old(completedTask) && showMessage == old(showMessage)
    {
      var length := |todoList|;
      var kept := RemoveTitle(todoList, title);
      RemoveKeepsTitlesVisible(todoList, title);
      todoList := kept;
      showClearAll := length > 4;
    }

    /**
     * `completeTask`: flips every entry with the given title; the completion
     * modal opens for that title only when its first entry was not completed.
     */
    method CompleteTask(title: string)
      requires Valid()
      modifies this
      ensures Valid()
      ensures todoList == ToggleTitle(old(todoList), title)
      ensures Find(old(todoList), title).None? ==> todoList == old(todoList)
      ensures Find(old(todoList), title).Some? && !Find(old(todoList), title).value.completed ==>
                && completedTask == Some(title) && showModal
                && Modal() == Some(CompletionNotice(title, true))
      ensures !(Find(old(todoList), title).Some? && !Find(old(todoList), title).value.completed) ==>
                completedTask == old(completedTask) && showModal == old(showModal)
      ensures currentTask == old(currentTask) && showMessage == old(showMessage)
      ensures showClearAll == old(showClearAll)
    {
      var found := Find(todoList, title);
      if found.Some? {
        var toggled := ToggleTitle(todoList, title);
        ToggleKeepsTitlesVisible(todoList, title);
        if !found.value.completed {
          FoundTitleVisible(todoList, title);
          CompletionNoticeShown(todoList, title);
          todoList, completedTask, showModal := toggled, Some(title), true;
        } else {
          todoList := toggled;
        }
      }
    }

    /** `closeModal`: hides the modal and forgets the completed task. */
    method CloseModal()
      requires Valid()
      modifies this
      ensures Valid()
      ensures !showModal && completedTask == None && Modal() == None
      ensures todoList == old(todoList) && currentTask == old(currentTask)
      ensures showMessage == old(showMessage) && showClearAll == old(showClearAll)
    {
      showModal := false;
      completedTask := None;
    }

    /** `clearAll`: opens the modal, which asks to confirm when no completed task is pending. */
    method ClearAll()
      requires Valid()
      modifies this
      ensures Valid()
      ensures showModal
      ensures completedTask == None ==> Modal() == Some(ClearAllPrompt)
      ensures todoList == old(todoList) && currentTask == old(currentTask) && completedTask == old(completedTask)
      ensures showMessage == old(showMessage) && showClearAll == old(showClearAll)
    {
      showModal := true;
    }

    /** `confirmClearAll`: empties the list and hides both the clear-all button and the modal. */
    method ConfirmClearAll()
      requires Valid()
      modifies this
      ensures Valid()
      ensures todoList == [] && !showClearAll && !showModal
      ensures currentTask == old(currentTask) && completedTask == old(completedTask)
      ensures showMessage == old(showMessage)
    {
      todoList := [];
      showClearAll := false;
      showModal := false;
    }

    /** `cancelClearAll`: hides the modal and changes nothing else. */
    method CancelClearAll()
      requires Valid()
      modifies this
      ensures Valid()
      ensures !showModal
      ensures todoList == old(todoList) && currentTask == old(currentTask) && completedTask == old(completedTask)
      ensures showMessage == old(showMessage) && showClearAll == old(showClearAll)
    {
      showModal := false;
    }
  }

  /** Adding, completing, acknowledging and deleting one task, as a user would click through it. */
  method BuyMilkScenario() {
    var app := new TodoApp();
    app.SetCurrentTask("Buy milk");
    assert !IsWhitespace("Buy milk"[0]);
    app.AddTask();
    assert app.todoList == [Task("Buy milk", false)];
    assert !app.showClearAll;

    app.CompleteTask("Buy milk");
    assert app.todoList == [Task("Buy milk", true)];
    assert app.Modal() == Some(CompletionNotice("Buy milk", true));

    app.CloseModal();
    assert app.Modal() == None;
    assert app.todoList == [Task("Buy milk", true)];

    app.DeleteTask("Buy milk");
    assert app.todoList == [];
  }

  /** A blank add is refused, two adds show the clear-all button, and confirming the prompt empties the list. */
  method ClearAllScenario() {
    var app := new TodoApp();
    app.SetCurrentTask("  ");
    assert IsBlank("  ");
    app.AddTask();
    assert app.todoList == [] && app.showMessage == Some(EmptyTaskNotice);

    app.SetCurrentTask("a");
    assert !IsWhitespace("a"[0]);
    app.AddTask();
    app.SetCurrentTask("b");
    assert !IsWhitespace("b"[0]);
    app.AddTask();
    assert |app.todoList| == 2 && app.showClearAll && app.showMessage == None;

    app.ClearAll();
    assert app.Modal() == Some(ClearAllPrompt);
    app.ConfirmClearAll();
    assert app.todoList == [] && !app.showClearAll && app.Modal() == None;
  }
}
