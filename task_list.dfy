/** The task list as a value: the ordered sequence of task views the
    tracker shows, and what each of its three intents does to it. */
module TaskList {
  import opened Tasks

  /** The notifications shown when an intent is refused. */
  const AddMessage := "Please enter both title and description."
  const RemoveMessage := "Please select a task to remove."
  const CompleteMessage := "Please select a task to mark as completed."

  /** The selected index when no row of the list is selected. */
  const NoSelection := -1

  /** What an intent tells the user: nothing, or a notification. */
  datatype Outcome = Done | Notify(message: string)

  /** The text of the two input fields when Add is pressed. */
  datatype Entry = Entry(title: string, description: string)

  /** The add intent's input check: both fields non-empty. The check is
      exact emptiness; a title of spaces passes it. */
  predicate Accepts(title: string, description: string): (ok: bool)
    ensures ok <==> |title| != 0 && |description| != 0
  {
    title != "" && description != ""
  }

  /** The list after the add intent with the given field contents. */
  function AddResult(s: seq<TaskView>, title: string, description: string): (r: seq<TaskView>)
    ensures !Accepts(title, description) ==> r == s
    ensures Accepts(title, description) ==>
      |r| == |s| + 1 && r[..|s|] == s && r[|s|] == TaskView(title, description, false)
  {
    if title == "" || description == "" then s else s + [TaskView(title, description, false)]
  }

  /** The list with the task at position i deleted; later tasks move down one place. */
  function RemovedAt(s: seq<TaskView>, i: nat): (r: seq<TaskView>)
    requires i < |s|
    ensures |r| == |s| - 1
    ensures forall j :: 0 <= j < i ==> r[j] == s[j]
    ensures forall j :: i <= j < |r| ==> r[j] == s[j + 1]
  {
    s[..i] + s[i + 1..]
  }

  /** The list with the task at position i marked completed. */
  function MarkedAt(s: seq<TaskView>, i: nat): (r: seq<TaskView>)
    requires i < |s|
    ensures |r| == |s|
    ensures r[i].completed && r[i].title == s[i].title && r[i].description == s[i].description
    ensures forall j :: 0 <= j < |s| && j != i ==> r[j] == s[j]
  {
    s[i := s[i].(completed := true)]
  }

  /** Putting the removed task back at its position gives the old list. */
  lemma RemovedAtInverse(s: seq<TaskView>, i: nat)
    requires i < |s|
    ensures RemovedAt(s, i)[..i] + [s[i]] + RemovedAt(s, i)[i..] == s
  {
  }

  /** Marking the same position twice is the same as marking it once. */
  lemma MarkedAtIdempotent(s: seq<TaskView>, i: nat)
    requires i < |s|
    ensures MarkedAt(MarkedAt(s, i), i) == MarkedAt(s, i)
  {
  }

  /** Every task in the list has a non-empty title and description. */
  ghost predicate AllFilled(s: seq<TaskView>)
  {
    forall j :: 0 <= j < |s| ==> s[j].title != "" && s[j].description != ""
  }

  /** The list after a series of add intents, applied in order. */
  function AddAll(s: seq<TaskView>, entries: seq<Entry>): (r: seq<TaskView>)
    decreases |entries|
  {
    if entries == [] then s
    else AddAll(AddResult(s, entries[0].title, entries[0].description), entries[1..])
  }

  /** The new tasks that a series of add intents creates: one per entry the
      input check accepts, in the order of the entries. */
  function Accepted(entries: seq<Entry>): (r: seq<TaskView>)
    decreases |entries|
  {
    if entries == [] then []
    else
      (if Accepts(entries[0].title, entries[0].description)
       then [TaskView(entries[0].title, entries[0].description, false)] else [])
      + Accepted(entries[1..])
  }

  /** A series of add intents appends the accepted entries, in order, and
      keeps every earlier task where it was. */
  lemma {:induction false} AddAllAppendsAccepted(s: seq<TaskView>, entries: seq<Entry>)
    ensures AddAll(s, entries) == s + Accepted(entries)
    decreases |entries|
  {
    if entries != [] {
      var e := entries[0];
      var s' := AddResult(s, e.title, e.description);
      AddAllAppendsAccepted(s', entries[1..]);
      var first := if Accepts(e.title, e.description) then [TaskView(e.title, e.description, false)] else [];
      assert s' == s + first;
      assert Accepted(entries) == first + Accepted(entries[1..]);
      assert (s + first) + Accepted(entries[1..]) == s + (first + Accepted(entries[1..]));
    }
  }

  /** When every entry passes the input check, each one gives a task, at the
      position of its submission. */
  lemma {:induction false} AcceptedAll(entries: seq<Entry>)
    requires forall k :: 0 <= k < |entries| ==> Accepts(entries[k].title, entries[k].description)
    ensures |Accepted(entries)| == |entries|
    ensures forall k :: 0 <= k < |entries| ==>
      Accepted(entries)[k] == TaskView(entries[k].title, entries[k].description, false)
    decreases |entries|
  {
    if entries != [] {
      AcceptedAll(entries[1..]);
      assert forall k :: 1 <= k < |entries| ==> entries[1..][k - 1] == entries[k];
    }
  }

  /** After n accepted add intents on an empty list, the list has n tasks, in
      submission order, none completed. */
  lemma AddAllFromEmpty(entries: seq<Entry>)
    requires forall k :: 0 <= k < |entries| ==> Accepts(entries[k].title, entries[k].description)
    ensures |AddAll([], entries)| == |entries|
    ensures forall k :: 0 <= k < |entries| ==>
      AddAll([], entries)[k] == TaskView(entries[k].title, entries[k].description, false)
  {
    AddAllAppendsAccepted([], entries);
    AcceptedAll(entries);
  }

  /** Add intents only ever store tasks whose fields are both non-empty. */
  lemma {:induction false} AddAllKeepsFilled(s: seq<TaskView>, entries: seq<Entry>)
    requires AllFilled(s)
    ensures AllFilled(AddAll(s, entries))
    decreases |entries|
  {
    if entries != [] {
      AddAllKeepsFilled(AddResult(s, entries[0].title, entries[0].description), entries[1..]);
    }
  }
}
