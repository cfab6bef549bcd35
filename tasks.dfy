/** One task of the tracker: a title and a description fixed when the task
    is created, and a completion flag that starts false and can only be set. */
module Tasks {

  /** What a task looks like from outside at one moment. */
  datatype TaskView = TaskView(title: string, description: string, completed: bool)

  /** The status word shown for a task; there are exactly two. */
  function StatusText(completed: bool): (s: string)
    ensures s == "Completed" <==> completed
    ensures s == "Pending" <==> !completed
  {
    if completed then "Completed" else "Pending"
  }

  /** The text a task gives as its string form: four literal labels and
      separators with the title, the description and the status word
      between them, at these positions. */
  function TaskString(v: TaskView): (r: string)
    ensures var t, d := |v.title|, |v.description|;
      && |r| == 34 + t + d + |StatusText(v.completed)|
      && r[..7] == "Title: "
      && r[7..7 + t] == v.title
      && r[7 + t..23 + t] == " | Description: "
      && r[23 + t..23 + t + d] == v.description
      && r[23 + t + d..34 + t + d] == " | Status: "
      && r[34 + t + d..] == StatusText(v.completed)
  {
    "Title: " + v.title + " | Description: " + v.description + " | Status: " + StatusText(v.completed)
  }

  /** A task's string form starts with its title, and its last nine
      characters spell "Completed" exactly when the task is completed. */
  lemma TaskStringShowsTask(v: TaskView)
    ensures var s := TaskString(v);
      |s| >= 9 &&
      s[..7 + |v.title|] == "Title: " + v.title &&
      (s[|s| - 9..] == "Completed" <==> v.completed)
  {
    var head := "Title: " + v.title + " | Description: " + v.description + " | Status: ";
    var s := TaskString(v);
    assert s == head + StatusText(v.completed);
    assert s[..7 + |v.title|] == head[..7 + |v.title|];
    if v.completed {
      assert s[|s| - 9..] == StatusText(v.completed);
    } else {
      assert s[|s| - 9] == head[|head| - 2] == ':';
    }
  }

  /** A task object. The title and description never change after
      construction; the flag goes from false to true and never back. */
  class Task {
    const title: string
    const description: string
    var completed: bool

    constructor (title: string, description: string)
      ensures this.title == title && this.description == description
      ensures !completed
    {
      this.title := title;
      this.description := description;
      completed := false;
    }

    /** The current value of this task, as its three getters give it. */
    function View(): (v: TaskView)
      reads this
      ensures v.title == title && v.description == description && v.completed == completed
    {
      TaskView(title, description, completed)
    }

    /** The string form of this task: it starts with the title and ends
        with "Completed" exactly when the task is completed. */
    function ToString(): (r: string)
      reads this
      ensures r == TaskString(View())
      ensures r[..7 + |title|] == "Title: " + title
      ensures |r| >= 9 && (r[|r| - 9..] == "Completed" <==> completed)
    {
      TaskStringShowsTask(View());
      TaskString(View())
    }

    /** Sets the flag. The new state does not depend on the old flag, so
        marking twice leaves the task as marking once does. */
    method MarkAsCompleted()
      modifies this
      ensures completed
      ensures View() == old(View()).(completed := true)
    {
      completed := true;
    }
  }
}
