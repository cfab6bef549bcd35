/** The tracker window's task store: the list of task objects, the list
    model the view shows (holding the same objects), and the two input
    fields of the add form. The window's layout and dialogs are not here. */
module Tracker {
  import opened Tasks
  import opened TaskList

  class QuickTaskTracker {
    var tasks: seq<Task>
    var listModel: seq<Task>
    var titleField: string
    var descriptionField: string

    /** The store's invariant: the list model holds the very objects of
        tasks, in the same order; no object is stored twice (each add
        creates a new one); every stored task has both fields filled. */
    ghost predicate Valid()
      reads this
    {
      && listModel == tasks
      && (forall i, j :: 0 <= i < j < |tasks| ==> tasks[i] != tasks[j])
      && (forall i :: 0 <= i < |tasks| ==> tasks[i].title != "" && tasks[i].description != "")
    }

    /** The tasks as values, in list order. */
    function Contents(): (c: seq<TaskView>)
      reads this, tasks
      ensures |c| == |tasks|
      ensures forall i :: 0 <= i < |tasks| ==> c[i] == tasks[i].View()
    {
      seq(|tasks|, i reads this, tasks requires 0 <= i < |tasks| => tasks[i].View())
    }

    constructor ()
      ensures Valid()
      ensures tasks == [] && listModel == []
      ensures titleField == "" && descriptionField == ""
    {
      tasks := [];
      listModel := [];
      titleField := "";
      descriptionField := "";
    }

    /** The add intent. With a field empty it notifies and changes nothing;
        otherwise it appends one new uncompleted task to both lists and
        clears both fields. */
    method AddTask() returns (outcome: Outcome)
      requires Valid()
      modifies this
      ensures Valid()
      ensures Contents() == AddResult(old(Contents()), old(titleField), old(descriptionField))
      ensures !Accepts(old(titleField), old(descriptionField)) ==>
        && outcome == Notify(AddMessage)
        && tasks == old(tasks)
        && titleField == old(titleField) && descriptionField == old(descriptionField)
      ensures Accepts(old(titleField), old(descriptionField)) ==>
        && outcome == Done
        && |tasks| == |old(tasks)| + 1
        && tasks[..|old(tasks)|] == old(tasks)
        && fresh(tasks[|old(tasks)|])
        && titleField == "" && descriptionField == ""
    {
      var title := titleField;
      var description := descriptionField;
      if title == "" || description == "" {
        outcome := Notify(AddMessage);
      } else {
        var newTask := new Task(title, description);
        tasks := tasks + [newTask];
        listModel := listModel + [newTask];
        titleField := "";
        descriptionField := "";
        outcome := Done;
      }
    }

    /** The remove intent on the selected row. With no selection it
        notifies and changes nothing; otherwise it deletes that row from
        both lists. */
    method RemoveTask(selectedIndex: int) returns (outcome: Outcome)
      requires Valid()
      requires NoSelection <= selectedIndex < |tasks|
      modifies this`tasks, this`listModel
      ensures Valid()
      ensures selectedIndex == NoSelection ==>
        outcome == Notify(RemoveMessage) && tasks == old(tasks)
      ensures selectedIndex != NoSelection ==>
        && outcome == Done
        && tasks == old(tasks)[..selectedIndex] + old(tasks)[selectedIndex + 1..]
        && Contents() == RemovedAt(old(Contents()), selectedIndex)
    {
      if selectedIndex != NoSelection {
        tasks := tasks[..selectedIndex] + tasks[selectedIndex + 1..];
        listModel := listModel[..selectedIndex] + listModel[selectedIndex + 1..];
        outcome := Done;
      } else {
        outcome := Notify(RemoveMessage);
      }
    }

    /** The complete intent on the selected row. With no selection it
        notifies and changes nothing; otherwise it marks that one task, which
        the list model shows too since it holds the same object. */
    method MarkTaskAsCompleted(selectedIndex: int) returns (outcome: Outcome)
      requires Valid()
      requires NoSelection <= selectedIndex < |tasks|
      modifies if selectedIndex == NoSelection then {} else {tasks[selectedIndex]}
      ensures Valid()
      ensures selectedIndex == NoSelection ==>
        outcome == Notify(CompleteMessage) && Contents() == old(Contents())
      ensures selectedIndex != NoSelection ==>
        && outcome == Done
        && Contents() == MarkedAt(old(Contents()), selectedIndex)
        && listModel[selectedIndex].completed
    {
      if selectedIndex != NoSelection {
        tasks[selectedIndex].MarkAsCompleted();
        outcome := Done;
      } else {
        outcome := Notify(CompleteMessage);
      }
    }
  }

  /** The first half of a sample session: two adds on a new tracker. */
  method SampleAdds() returns (t: QuickTaskTracker, added: seq<Outcome>)
    ensures fresh(t) && fresh(t.tasks) && t.Valid()
    ensures t.Contents() == [TaskView("Buy milk", "2%", false), TaskView("Call Bob", "re: project", false)]
    ensures added == [Done, Done]
  {
    t := new QuickTaskTracker();
    t.titleField, t.descriptionField := "Buy milk", "2%";
    var o1 := t.AddTask();
    assert t.Contents() == [TaskView("Buy milk", "2%", false)];
    t.titleField, t.descriptionField := "Call Bob", "re: project";
    var o2 := t.AddTask();
    added := [o1, o2];
  }

  /** A sample session: two adds, mark the first, remove the second, and a
      remove with nothing selected. What is left is the first task, completed. */
  method Walkthrough() returns (shown: seq<TaskView>, messages: seq<Outcome>)
    ensures shown == [TaskView("Buy milk", "2%", true)]
    ensures messages == [Done, Done, Done, Done, Notify(RemoveMessage)]
  {
    var t, added := SampleAdds();
    var o3 := t.MarkTaskAsCompleted(0);
    assert t.Contents() == [TaskView("Buy milk", "2%", true), TaskView("Call Bob", "re: project", false)];
    var o4 := t.RemoveTask(1);
    var o5 := t.RemoveTask(NoSelection);
    shown := t.Contents();
    messages := added + [o3, o4, o5];
  }
}
