/** Successive invocations of the CLI against one backing file. Each
    invocation reads the file afresh, runs one command, and, when that command
    hands a document to `writeTodoList` and the write succeeds, replaces the
    file's content with it. A stored document reads back as itself: the JSON
    text in between is outside the model. */
module Session {
  import opened Results
  import opened Decimal
  import opened TodoStore
  import opened Commands

  /** The state of `todo.json` between invocations. */
  datatype FileState =
    | NoFile
    | Stored(doc: Document)
    | Unreadable(code: string, reason: string) // reading it fails with this error
    | Corrupt(reason: string)                  // its text is not valid JSON

  /** The error Node reports when the file does not exist. */
  const NoFileReason := "ENOENT: no such file or directory, open 'todo.json'"

  /** What an invocation reads from the file. */
  function ReadOf(file: FileState): ReadResult {
    match file
    case NoFile => ReadFailed(Enoent, NoFileReason)
    case Stored(doc) => Parsed(doc)
    case Unreadable(code, reason) => ReadFailed(code, reason)
    case Corrupt(reason) => ParseFailed(reason)
  }

  /** One command line: `list`, `add <task>` or `remove <taskNumber>`. */
  datatype Command = List | Add(text: string) | Remove(taskNumber: string)

  /** The file after an invocation and what that invocation did. */
  datatype Outcome = Outcome(file: FileState, run: Run)

  /** Runs one command against the file; `status` is how the write (if one is
      made) calls back. A failed write leaves the previous content in place. */
  function Step(file: FileState, cmd: Command, status: WriteStatus): (o: Outcome)
    ensures o.file != file ==> !cmd.List? && status.WriteOk? && o.file.Stored? && o.run.write == Some(o.file.doc)
    ensures Load(ReadOf(file)).Failure? ==>
      o.file == file && o.run == ReadFailure(Load(ReadOf(file)).error)
    ensures o.run.write.Some? && status.WriteOk? ==> o.file == Stored(o.run.write.value)
  {
    var run := match cmd
      case List => ListCommand(ReadOf(file))
      case Add(text) => AddCommand(ReadOf(file), text, status)
      case Remove(taskNumber) => RemoveCommand(ReadOf(file), taskNumber, status);
    var next := if run.write.Some? && status.WriteOk? then Stored(run.write.value) else file;
    Outcome(next, run)
  }

  /** The file after running `cmds` in order, every write succeeding. */
  function Replay(file: FileState, cmds: seq<Command>): FileState
    decreases |cmds|
  {
    if |cmds| == 0 then file else Replay(Step(file, cmds[0], WriteOk).file, cmds[1..])
  }

  /** `add t` for each text in turn. */
  function AddEach(texts: seq<string>): (cmds: seq<Command>)
    ensures |cmds| == |texts|
    ensures forall i :: 0 <= i < |texts| ==> cmds[i] == Add(texts[i])
  {
    if |texts| == 0 then [] else [Add(texts[0])] + AddEach(texts[1..])
  }

  /** The document an invocation works on when the read succeeds. */
  function Loaded(file: FileState): Document
    requires file.NoFile? || file.Stored?
  {
    if file.NoFile? then EmptyDocument() else file.doc
  }

  /** An add whose write succeeds stores the added document and reports it. */
  lemma AddStep(file: FileState, text: string)
    requires file.NoFile? || file.Stored?
    ensures var added := AddTask(Loaded(file), text);
      Step(file, Add(text), WriteOk) == Outcome(Stored(added), Run(Some(added), [AddedLine(text)], [], false))
  {
    assert Load(ReadOf(file)) == Success(Loaded(file));
  }

  /** A remove of a listed number whose write succeeds stores the shortened list. */
  lemma RemoveStep(doc: Document, taskNumber: string)
    requires doc.tasks.TaskArray? && NamesTask(taskNumber, |doc.tasks.items|)
    ensures var i := ParseInt(taskNumber).value - 1;
      var removed := doc.(tasks := TaskArray(RemoveAt(doc.tasks.items, i)));
      Step(Stored(doc), Remove(taskNumber), WriteOk)
        == Outcome(Stored(removed), Run(Some(removed), [RemovedLine(doc.tasks.items[i])], [], false))
  {
  }

  /** A non-empty sequence is its head followed by its tail. */
  lemma HeadTail<T>(s: seq<T>)
    requires |s| > 0
    ensures [s[0]] + s[1..] == s
  {
  }

  /** Appending the head and then the tail of `s` appends `s`. */
  lemma AppendHeadTail<T>(items: seq<T>, s: seq<T>)
    requires |s| > 0
    ensures items + [s[0]] + s[1..] == items + s
  {
    HeadTail(s);
    assert items + [s[0]] + s[1..] == items + ([s[0]] + s[1..]);
  }

  /** A successful add to a stored array appends to it. */
  lemma AddToArray(items: seq<string>, others: OtherMembers, text: string)
    ensures Step(Stored(Document(TaskArray(items), others)), Add(text), WriteOk).file
         == Stored(Document(TaskArray(items + [text]), others))
  {
    AddStep(Stored(Document(TaskArray(items), others)), text);
    AddTaskAppends(items, others, text);
  }

  /** A successful add with no file creates a file holding that one task. */
  lemma AddToNoFile(text: string)
    ensures Step(NoFile, Add(text), WriteOk).file == Stored(Document(TaskArray([text]), map[]))
  {
    AddStep(NoFile, text);
    AddTaskAppends([], map[], text);
    assert [] + [text] == [text];
  }

  /** Replaying a non-empty run of adds is one add followed by the rest. */
  lemma ReplayAddEach(file: FileState, texts: seq<string>)
    requires |texts| > 0
    ensures Replay(file, AddEach(texts)) == Replay(Step(file, Add(texts[0]), WriteOk).file, AddEach(texts[1..]))
  {
    var cmds := AddEach(texts);
    assert cmds[0] == Add(texts[0]) && cmds[1..] == AddEach(texts[1..]);
  }

  /** Adding texts one by one to a stored array appends them in order and
      leaves the other members of the document alone. */
  lemma {:induction false} AddEachAppends(items: seq<string>, others: OtherMembers, texts: seq<string>)
    ensures Replay(Stored(Document(TaskArray(items), others)), AddEach(texts))
         == Stored(Document(TaskArray(items + texts), others))
    decreases |texts|
  {
    if |texts| == 0 {
      assert items + texts == items;
    } else {
      ReplayAddEach(Stored(Document(TaskArray(items), others)), texts);
      AddToArray(items, others, texts[0]);
      AddEachAppends(items + [texts[0]], others, texts[1..]);
      AppendHeadTail(items, texts);
    }
  }

  /** Starting with no file, adding T1..Tn stores exactly T1..Tn. */
  lemma AddEachFromNoFile(texts: seq<string>)
    requires |texts| > 0
    ensures Replay(NoFile, AddEach(texts)) == Stored(Document(TaskArray(texts), map[]))
  {
    ReplayAddEach(NoFile, texts);
    AddToNoFile(texts[0]);
    AddEachAppends([texts[0]], map[], texts[1..]);
    HeadTail(texts);
  }

  /** Starting with no file, adding T1..Tn and then listing shows exactly
      "1. T1" .. "n. Tn", in that order (or the placeholder when n is 0). */
  lemma ListAfterAdds(texts: seq<string>)
    ensures Step(Replay(NoFile, AddEach(texts)), List, WriteOk).run
         == Run(None, RenderTasks(texts), [], false)
  {
    if |texts| > 0 {
      AddEachFromNoFile(texts);
    } else {
      assert AddEach(texts) == [];
    }
  }

  /** Listing with no file prints the placeholder and creates no file. */
  lemma ListWithoutFile(status: WriteStatus)
    ensures Step(NoFile, List, status) == Outcome(NoFile, Run(None, [Header, NoTasksLine], [], false))
  {
  }

  /** A rejected remove leaves the file exactly as it was. */
  lemma InvalidRemoveKeepsFile(doc: Document, taskNumber: string, status: WriteStatus)
    requires doc.tasks.TaskArray?
    requires !NamesTask(taskNumber, |doc.tasks.items|)
    ensures Step(Stored(doc), Remove(taskNumber), status)
         == Outcome(Stored(doc), Run(None, [], [InvalidTaskNumber], false))
  {
  }

  // The three lemmas below are only helpers for the example session: they
  // spell out literal facts so the example proofs stay small.

  /** The confirmation lines of the example session. */
  lemma ExampleConfirmations()
    ensures AddedLine("buy milk") == "Task \"buy milk\" added!"
    ensures AddedLine("write report") == "Task \"write report\" added!"
    ensures RemovedLine("buy milk") == "Removed task: \"buy milk\""
  {
  }

  /** The task lists of the example session. */
  lemma ExampleLists()
    ensures ["buy milk"] + ["write report"] == ["buy milk", "write report"]
    ensures RemoveAt(["buy milk", "write report"], 0) == ["write report"]
  {
  }

  /** The numerals the example session prints. */
  lemma SmallNumerals()
    ensures NatToString(1) == "1" && NatToString(2) == "2"
  {
  }

  /** The files of the example session: one task, then two, then the second alone. */
  function MilkOnly(): FileState { Stored(Document(TaskArray(["buy milk"]), map[])) }
  function MilkAndReport(): FileState { Stored(Document(TaskArray(["buy milk", "write report"]), map[])) }
  function ReportOnly(): FileState { Stored(Document(TaskArray(["write report"]), map[])) }

  /** Example session, step 1: with no file, `add "buy milk"`. */
  lemma ExampleAddMilk()
    ensures Step(NoFile, Add("buy milk"), WriteOk)
         == Outcome(MilkOnly(), Run(Some(MilkOnly().doc), ["Task \"buy milk\" added!"], [], false))
  {
    ExampleConfirmations();
    AddStep(NoFile, "buy milk");
    AddToNoFile("buy milk");
  }

  /** Example session, step 2: `add "write report"`. */
  lemma ExampleAddReport()
    ensures Step(MilkOnly(), Add("write report"), WriteOk)
         == Outcome(MilkAndReport(), Run(Some(MilkAndReport().doc), ["Task \"write report\" added!"], [], false))
  {
    ExampleConfirmations();
    ExampleLists();
    AddStep(MilkOnly(), "write report");
    AddToArray(["buy milk"], map[], "write report");
  }

  /** Example session, step 3: `list` shows both tasks, numbered from 1. */
  lemma ExampleListBoth()
    ensures Step(MilkAndReport(), List, WriteOk)
         == Outcome(MilkAndReport(), Run(None, ["Todo List:", "1. buy milk", "2. write report"], [], false))
  {
    SmallNumerals();
    assert TaskLine(1, "buy milk") == "1. buy milk";
    assert TaskLine(2, "write report") == "2. write report";
  }

  /** Example session, step 4: `remove 1` removes and reports "buy milk". */
  lemma ExampleRemoveFirst()
    ensures Step(MilkAndReport(), Remove("1"), WriteOk)
         == Outcome(ReportOnly(), Run(Some(ReportOnly().doc), ["Removed task: \"buy milk\""], [], false))
  {
    assert ParseInt("1") == Some(1) by {
      ParseIntOfNatToStringAlone(1);
      SmallNumerals();
    }
    ExampleConfirmations();
    ExampleLists();
    RemoveStep(MilkAndReport().doc, "1");
  }

  /** Example session, step 5: `list` shows the remaining task as number 1. */
  lemma ExampleListRemaining()
    ensures Step(ReportOnly(), List, WriteOk)
         == Outcome(ReportOnly(), Run(None, ["Todo List:", "1. write report"], [], false))
  {
    SmallNumerals();
    assert TaskLine(1, "write report") == "1. write report";
  }
}
