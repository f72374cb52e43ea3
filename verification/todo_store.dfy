/** The stored todo document and the two pure steps the commands apply to it:
    turning a read into a document, and the add and remove mutations of its
    task list. Reading and writing `todo.json` themselves are effects outside
    the model; a read arrives here as a `ReadResult`. */
module TodoStore {
  import opened Results

  /** The `tasks` member of the stored object, as `JSON.parse` produced it. */
  datatype TasksField =
    | Absent                        // missing or null: reading its `length` throws
    | TaskArray(items: seq<string>) // a JSON array, in stored (= display) order
    | NotArray(length: Option<int>) // any other value; `length` is its numeric
                                    // `length` property if it has one (strings do)

  /** The top-level members of `todo.json` other than `tasks`, by name, each
      kept opaque as its serialised value. A JSON object has one `tasks`
      member, so `"tasks"` is never among them. */
  type OtherMembers = m: map<string, string> | "tasks" !in m witness map[]

  /** The parsed content of `todo.json`: its `tasks` member and the others. */
  datatype Document = Document(tasks: TasksField, others: OtherMembers)

  /** What reading the file and parsing it delivered. */
  datatype ReadResult =
    | ReadFailed(code: string, reason: string) // `fs.readFile` reported an error
    | ParseFailed(reason: string)              // the text is not valid JSON
    | Parsed(doc: Document)

  /** Node's error code for a file that does not exist. */
  const Enoent := "ENOENT"

  /** The document an absent file stands for, `{ tasks: [] }`. */
  function EmptyDocument(): Document {
    Document(TaskArray([]), map[])
  }

  /** `readTodoList`: an absent file is an empty task list; any other read
      error, and any parse error, is handed on as a failure. */
  function Load(read: ReadResult): (r: Result<Document, string>)
    ensures r.Failure? <==> (read.ReadFailed? && read.code != Enoent) || read.ParseFailed?
    ensures r.Failure? ==> r.error == read.reason
    ensures read.ReadFailed? && read.code == Enoent ==> r == Success(EmptyDocument())
    ensures read.Parsed? ==> r == Success(read.doc)
  {
    match read
    case ReadFailed(code, reason) =>
      if code == Enoent then Success(EmptyDocument()) else Failure(reason)
    case ParseFailed(reason) => Failure(reason)
    case Parsed(doc) => Success(doc)
  }

  /** The task list add starts from: the stored array, or the empty list when
      `tasks` is missing or is not an array. */
  function ItemsOrEmpty(tasks: TasksField): seq<string> {
    if tasks.TaskArray? then tasks.items else []
  }

  /** Add's defensive step: a `tasks` member that is not an array is replaced
      by an empty array; nothing else in the document changes. */
  function WithTaskArray(doc: Document): (r: Document)
    ensures r.tasks.TaskArray? && r.others == doc.others
    ensures doc.tasks.TaskArray? ==> r == doc
    ensures !doc.tasks.TaskArray? ==> r.tasks.items == []
  {
    if doc.tasks.TaskArray? then doc else doc.(tasks := TaskArray([]))
  }

  /** Add's mutation: coerce `tasks` to an array, then push `text` onto it.
      Any text is accepted, the empty text and duplicates included. */
  function AddTask(doc: Document, text: string): (r: Document)
    ensures r.tasks.TaskArray? && r.others == doc.others
    ensures var before := ItemsOrEmpty(doc.tasks);
      && |r.tasks.items| == |before| + 1
      && r.tasks.items[|before|] == text
      && r.tasks.items[..|before|] == before
    ensures !doc.tasks.TaskArray? ==> r.tasks.items == [text]
  {
    var coerced := WithTaskArray(doc);
    coerced.(tasks := TaskArray(coerced.tasks.items + [text]))
  }

  /** On an array-valued `tasks` member, add is exactly an append. */
  lemma AddTaskAppends(items: seq<string>, others: OtherMembers, text: string)
    ensures AddTask(Document(TaskArray(items), others), text) == Document(TaskArray(items + [text]), others)
  {
    var r := AddTask(Document(TaskArray(items), others), text);
    assert r.tasks.items == items + [text];
  }

  /** `items.splice(i, 1)` on the list: exactly the element at `i` goes, the
      others keep their relative order and move up by one position. */
  function RemoveAt(items: seq<string>, i: nat): (r: seq<string>)
    requires i < |items|
    ensures |r| == |items| - 1
    ensures r[..i] == items[..i]
    ensures forall k :: i <= k < |r| ==> r[k] == items[k + 1]
  {
    items[..i] + items[i + 1..]
  }

  /** Remove takes away one occurrence of the removed task and nothing else. */
  lemma RemoveAtMultiset(items: seq<string>, i: nat)
    requires i < |items|
    ensures multiset(RemoveAt(items, i)) + multiset{items[i]} == multiset(items)
  {
    assert items == items[..i] + [items[i]] + items[i + 1..];
  }

  /** Putting the removed element back where it was rebuilds the list: remove
      loses nothing but that one element. */
  lemma RemoveAtThenReinsert(items: seq<string>, i: nat)
    requires i < |items|
    ensures RemoveAt(items, i)[..i] + [items[i]] + RemoveAt(items, i)[i..] == items
  {
    var r := RemoveAt(items, i);
    var rebuilt := r[..i] + [items[i]] + r[i..];
    assert |rebuilt| == |items|;
    forall k | 0 <= k < |items|
      ensures rebuilt[k] == items[k]
    {
      if k > i {
        assert rebuilt[k] == r[k - 1];
      }
    }
  }

  /** Removing the last task undoes adding it: add and remove are inverse on
      an array-valued `tasks` member. */
  lemma RemoveAtUndoesAddTask(doc: Document, text: string)
    requires doc.tasks.TaskArray?
    ensures var added := AddTask(doc, text);
      RemoveAt(added.tasks.items, |doc.tasks.items|) == doc.tasks.items
  {
    var added := AddTask(doc, text);
    var n := |doc.tasks.items|;
    assert added.tasks.items[..n] == doc.tasks.items;
    assert added.tasks.items[n + 1..] == [];
  }
}
