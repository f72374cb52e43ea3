/** The three commands of the CLI — list, add and remove — each as one
    sequential step from the read result (and, for the mutating ones, the
    outcome of the write) to what the invocation does: the document it hands
    to `writeTodoList`, the lines it prints to standard output and to standard
    error, and whether an uncaught exception ends it. */
module Commands {
  import opened Results
  import opened Decimal
  import opened TodoStore

  /** How `fs.writeFile` called back. */
  datatype WriteStatus = WriteOk | WriteError(reason: string)

  /** The observable effect of one invocation. `write` is the document handed
      to `writeTodoList`, if any; `crashed` means an uncaught TypeError ended
      the process (Node prints its stack, which the model does not spell out). */
  datatype Run = Run(write: Option<Document>, stdout: seq<string>, stderr: seq<string>, crashed: bool)

  const Header := "Todo List:"
  const NoTasksLine := "  (No tasks found)"
  const InvalidTaskNumber := "Invalid task number."

  function ReadErrorLine(reason: string): string {
    "Error reading todo list: " + reason
  }

  function WriteErrorLine(reason: string): string {
    "Error writing todo list: " + reason
  }

  function AddedLine(text: string): string {
    "Task \"" + text + "\" added!"
  }

  function RemovedLine(text: string): string {
    "Removed task: \"" + text + "\""
  }

  /** The line list prints for the task at 1-based `position`. */
  function TaskLine(position: nat, text: string): string {
    NatToString(position) + ". " + text
  }

  /** What every command does when the read fails: one error line, no write. */
  function ReadFailure(reason: string): Run {
    Run(None, [], [ReadErrorLine(reason)], false)
  }

  /** The report of a write: the success line only once the write callback
      reports no error, the write error line otherwise. */
  function AfterWrite(doc: Document, status: WriteStatus, success: string): (r: Run)
    ensures r.write == Some(doc) && !r.crashed
    ensures status.WriteOk? ==> r.stdout == [success] && r.stderr == []
    ensures status.WriteError? ==> r.stdout == [] && r.stderr == [WriteErrorLine(status.reason)]
  {
    match status
    case WriteOk => Run(Some(doc), [success], [], false)
    case WriteError(reason) => Run(Some(doc), [], [WriteErrorLine(reason)], false)
  }

  /** The `forEach` of list: one numbered line per task, numbering from `first`. */
  function NumberedLines(items: seq<string>, first: nat): (lines: seq<string>)
    ensures |lines| == |items|
    ensures forall k :: 0 <= k < |items| ==> lines[k] == TaskLine(first + k, items[k])
    decreases |items|
  {
    if |items| == 0 then [] else [TaskLine(first, items[0])] + NumberedLines(items[1..], first + 1)
  }

  /** Everything list prints for an array of tasks: the header, then either the
      placeholder line or line k + 1 reading "{k + 1}. {items[k]}". */
  function RenderTasks(items: seq<string>): (lines: seq<string>)
    ensures |lines| >= 2 && lines[0] == Header
    ensures |items| == 0 ==> lines == [Header, NoTasksLine]
    ensures |items| > 0 ==> |lines| == |items| + 1
    ensures |items| > 0 ==> forall k :: 0 <= k < |items| ==> lines[k + 1] == TaskLine(k + 1, items[k])
  {
    if |items| == 0 then [Header, NoTasksLine] else [Header] + NumberedLines(items, 1)
  }

  /** The list command. It never writes. A read failure prints one error
      line. A missing `tasks` member throws after the header is printed, as
      does any non-array value except one whose `length` is 0. */
  function ListCommand(read: ReadResult): (r: Run)
    ensures r.write == None
    ensures Load(read).Failure? ==> r == ReadFailure(Load(read).error)
    ensures Load(read).Success? ==> r.stderr == [] && |r.stdout| >= 1 && r.stdout[0] == Header
    ensures Load(read).Success? && Load(read).value.tasks.TaskArray? ==>
      r == Run(None, RenderTasks(Load(read).value.tasks.items), [], false)
    ensures Load(read).Success? && !Load(read).value.tasks.TaskArray? ==>
      r == (if Load(read).value.tasks == NotArray(Some(0)) then Run(None, [Header, NoTasksLine], [], false)
            else Run(None, [Header], [], true))
  {
    match Load(read)
    case Failure(reason) => ReadFailure(reason)
    case Success(doc) =>
      match doc.tasks
      case TaskArray(items) => Run(None, RenderTasks(items), [], false)
      case Absent => Run(None, [Header], [], true)
      case NotArray(length) =>
        if length == Some(0) then Run(None, [Header, NoTasksLine], [], false)
        else Run(None, [Header], [], true)
  }

  /** The add command: read, coerce `tasks` to an array, append the text,
      write, and report. */
  function AddCommand(read: ReadResult, text: string, status: WriteStatus): (r: Run)
    ensures !r.crashed
    ensures Load(read).Failure? ==> r == ReadFailure(Load(read).error)
    ensures Load(read).Success? ==> r.write == Some(AddTask(Load(read).value, text))
    ensures Load(read).Success? && status.WriteOk? ==> r.stdout == [AddedLine(text)] && r.stderr == []
    ensures Load(read).Success? && status.WriteError? ==> r.stdout == [] && r.stderr == [WriteErrorLine(status.reason)]
  {
    match Load(read)
    case Failure(reason) => ReadFailure(reason)
    case Success(doc) => AfterWrite(AddTask(doc, text), status, AddedLine(text))
  }

  /** A task number names a task of an `n`-element list when `parseInt`
      reads a number p from it with 1 <= p <= n. */
  predicate NamesTask(taskNumber: string, n: nat) {
    var p := ParseInt(taskNumber);
    p.Some? && 1 <= p.value <= n
  }

  /** The remove command: `index = parseInt(taskNumber, 10) - 1`, rejected
      when NaN, negative or not below `tasks.length`; otherwise that one task
      is spliced out, the document written and the removed text reported. */
  function RemoveCommand(read: ReadResult, taskNumber: string, status: WriteStatus): (r: Run)
    ensures Load(read).Failure? ==> r == ReadFailure(Load(read).error)
    ensures r.write.Some? ==> Load(read).Success? && Load(read).value.tasks.TaskArray?
    ensures Load(read).Success? && Load(read).value.tasks.TaskArray? ==>
      var doc := Load(read).value;
      var items := doc.tasks.items;
      && !r.crashed
      && (r.write.Some? <==> NamesTask(taskNumber, |items|))
      && (!NamesTask(taskNumber, |items|) ==> r == Run(None, [], [InvalidTaskNumber], false))
      && (NamesTask(taskNumber, |items|) ==>
            var i := ParseInt(taskNumber).value - 1;
            && r.write == Some(doc.(tasks := TaskArray(RemoveAt(items, i))))
            && (status.WriteOk? ==> r.stdout == [RemovedLine(items[i])] && r.stderr == [])
            && (status.WriteError? ==> r.stdout == [] && r.stderr == [WriteErrorLine(status.reason)]))
    ensures Load(read).Success? && !Load(read).value.tasks.TaskArray? ==>
      var tasks := Load(read).value.tasks;
      var p := ParseInt(taskNumber);
      r == (if p.Some? && p.value >= 1 && !(tasks.NotArray? && tasks.length.Some? && p.value > tasks.length.value)
            then Run(None, [], [], true)
            else Run(None, [], [InvalidTaskNumber], false))
  {
    match Load(read)
    case Failure(reason) => ReadFailure(reason)
    case Success(doc) =>
      var parsed := ParseInt(taskNumber);
      if parsed.None? || parsed.value - 1 < 0 then Run(None, [], [InvalidTaskNumber], false)
      else
        var index: nat := parsed.value - 1;
        match doc.tasks
        case Absent => Run(None, [], [], true)
        case NotArray(length) =>
          // `index >= length` is false when `length` is undefined; the splice that follows throws
          if length.Some? && index >= length.value then Run(None, [], [InvalidTaskNumber], false)
          else Run(None, [], [], true)
        case TaskArray(items) =>
          if index >= |items| then Run(None, [], [InvalidTaskNumber], false)
          else AfterWrite(doc.(tasks := TaskArray(RemoveAt(items, index))), status, RemovedLine(items[index]))
  }

  /** A listed line reads back: `parseInt` takes its number and the text after
      "N. " is the task. */
  lemma TaskLineReadsBack(position: nat, text: string)
    ensures ParseInt(TaskLine(position, text)) == Some(position)
    ensures TaskLine(position, text)[|NatToString(position)| + 2..] == text
  {
    var digits := NatToString(position);
    var rest := ". " + text;
    assert TaskLine(position, text) == digits + rest;
    assert ParseInt(digits + rest) == Some(position) by {
      assert rest[0] == '.';
      ParseIntOfNatToString(position, rest);
    }
    assert (digits + rest)[|digits| + 2..] == text by {
      assert (digits + rest)[|digits|..] == rest;
      assert rest[2..] == text;
    }
  }

  /** The number list prints in front of a task is the number that removes
      that task: `remove k` splices out exactly the task shown as "k. ...",
      and reports its text. */
  lemma ListedNumberRemovesListedTask(doc: Document, k: nat, status: WriteStatus)
    requires doc.tasks.TaskArray?
    requires 1 <= k <= |doc.tasks.items|
    ensures var items := doc.tasks.items;
      var r := RemoveCommand(Parsed(doc), NatToString(k), status);
      && RenderTasks(items)[k] == TaskLine(k, items[k - 1])
      && r.write == Some(doc.(tasks := TaskArray(RemoveAt(items, k - 1))))
      && (status.WriteOk? ==> r.stdout == [RemovedLine(items[k - 1])])
  {
    ParseIntOfNatToStringAlone(k);
  }

  /** Passing a whole listed line to remove has the same effect as passing
      its number, since `parseInt` ignores what follows the digits. */
  lemma RemoveAcceptsListedLine(doc: Document, k: nat, status: WriteStatus)
    requires doc.tasks.TaskArray?
    requires 1 <= k <= |doc.tasks.items|
    ensures RemoveCommand(Parsed(doc), RenderTasks(doc.tasks.items)[k], status)
         == RemoveCommand(Parsed(doc), NatToString(k), status)
  {
    var line := RenderTasks(doc.tasks.items)[k];
    assert ParseInt(line) == ParseInt(NatToString(k)) by {
      TaskLineReadsBack(k, doc.tasks.items[k - 1]);
      ParseIntOfNatToStringAlone(k);
    }
    RemoveReadsOnlyTheNumber(Parsed(doc), line, NatToString(k), status);
  }

  /** Remove looks at its argument only through `parseInt`: two arguments
      that parse alike have the same effect. */
  lemma RemoveReadsOnlyTheNumber(read: ReadResult, a: string, b: string, status: WriteStatus)
    requires ParseInt(a) == ParseInt(b)
    ensures RemoveCommand(read, a, status) == RemoveCommand(read, b, status)
  {
  }

  /** Position 0, position n + 1 and text that does not start a number are all
      rejected with "Invalid task number." and nothing is written. */
  lemma OutOfRangePositionsRejected(doc: Document, bad: string, status: WriteStatus)
    requires doc.tasks.TaskArray?
    requires !StartsNumber(TrimStart(bad))
    ensures var rejected := Run(None, [], [InvalidTaskNumber], false);
      && RemoveCommand(Parsed(doc), "0", status) == rejected
      && RemoveCommand(Parsed(doc), NatToString(|doc.tasks.items| + 1), status) == rejected
      && RemoveCommand(Parsed(doc), bad, status) == rejected
  {
    var n := |doc.tasks.items|;
    assert !NamesTask("0", n) by {
      ParseIntOfNatToStringAlone(0);
      assert NatToString(0) == "0";
    }
    assert !NamesTask(NatToString(n + 1), n) by {
      ParseIntOfNatToStringAlone(n + 1);
    }
    assert !NamesTask(bad, n);
  }

  /** Removing, by its listed number, the task just added gives back the
      document as it was before the add. */
  lemma RemoveUndoesAdd(doc: Document, text: string, status: WriteStatus)
    requires doc.tasks.TaskArray?
    ensures var added := AddTask(doc, text);
      var n := |doc.tasks.items|;
      && RemoveCommand(Parsed(added), NatToString(n + 1), status).write == Some(doc)
      && (status.WriteOk? ==> RemoveCommand(Parsed(added), NatToString(n + 1), status).stdout == [RemovedLine(text)])
  {
    var added := AddTask(doc, text);
    ListedNumberRemovesListedTask(added, |doc.tasks.items| + 1, status);
    RemoveAtUndoesAddTask(doc, text);
  }
}
