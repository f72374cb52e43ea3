# Todo CLI task store — a Dafny model

This project models the core of a small command-line todo manager (`CLI/index.js`).
The manager keeps an ordered list of task texts in `todo.json` and offers three
commands:

- `list` prints `Todo List:`. It then prints either `  (No tasks found)` or one
  line `N. <task>` per task, numbered from 1.
- `add <task>` appends a task. Before appending, it replaces a missing or
  non-array `tasks` member with `[]`.
- `remove <taskNumber>` reads a 1-based position with `parseInt(…, 10)` and
  checks its range. It then splices out that one task.

Each command reads the file afresh. An absent file counts as `{ tasks: [] }`.
Any other read error, or a JSON parse error, makes the command print one error
line and do nothing else.

The model is functional: immutable datatypes and pure functions.

- `Results`: `Option` and `Result`. These stand for NaN/`undefined` and for
  Node's error-first callbacks.
- `Decimal`: how JavaScript prints a non-negative integer below 10^21 (from
  10^21 on it switches to exponent form such as `1e+21`; list positions never
  get that large), and
  `parseInt(text, 10)`. The parser skips leading ECMAScript white space, reads
  one optional sign and then the longest run of digits, and ignores whatever
  follows. So `"2abc"` reads as 2 and `"abc"` reads as NaN (`None`).
- `TodoStore`: the stored document. It has a `tasks` member (absent, an array
  of texts, or some other JSON value) and the other top-level members, kept
  opaque. The module also holds `readTodoList` as `Load`, add's coercion and
  append as `AddTask`, and the splice as `RemoveAt`.
- `Commands`: each command is one sequential step. It takes the read result
  and, for `add`/`remove`, how the write called back. It returns a `Run`: the
  document handed to `writeTodoList` (if any), the stdout lines, the stderr
  lines, and whether an uncaught `TypeError` ended the process.
- `Session`: successive invocations against one file. A successful write
  replaces the file's content, and a stored document reads back as itself.
  This module also holds an example session: add `buy milk`, add
  `write report`, list, `remove 1`, list.

The `list` and `remove` commands do not guard against a missing `tasks`
member, while `add` does. The model keeps this asymmetry. `list` prints the
header and then crashes. `remove` rejects a NaN or non-positive number first
and crashes otherwise. A non-array value is treated the same way, except that
a value whose `length` is 0 (an empty string) lists as `  (No tasks found)`.
For a value with a numeric `length`, a position above that length is rejected
as `Invalid task number.`.

`remove` reads its argument with `parseInt`, so any text that begins with a
number is accepted; `remove "1. buy milk"` removes task 1
(`Commands.RemoveAcceptsListedLine`).

## Model

| member | source | states |
|---|---|---|
| Decimal.NatToString | CLI/index.js:47 | the number printed before a task is a non-empty run of decimal digits with no leading zero |
| Decimal.DigitsValueOfNatToString | CLI/index.js:47 | reading the printed digits back gives the position that was printed |
| Decimal.NatToStringInjective | CLI/index.js:47 | different positions are printed as different numbers |
| Decimal.ParseInt | CLI/index.js:88 | `parseInt(s, 10)` gives a number exactly when the text after leading white space starts with a digit, or with a sign and then a digit; a negative result needs a leading `-` |
| Decimal.ParseIntOfNatToString | CLI/index.js:88 | a decimal numeral followed by text that does not start with a digit parses to the numeral's value: the round trip holds and trailing text is ignored |
| Decimal.ParseIntOfNatToStringAlone | CLI/index.js:88 | the numeral of n on its own parses to n |
| Decimal.ParseIntOfNegated | CLI/index.js:88 | `-` followed by the numeral of n parses to -n, so its index is negative |
| Decimal.ParseIntSkipsWhitespace | CLI/index.js:88 | leading white space does not change the parsed number |
| Decimal.TrimStartDropsOnlyWhitespace | CLI/index.js:88 | the skipped prefix is all white space and the rest of the argument is kept unchanged |
| Decimal.LeadingDigitsIsLongestPrefix | CLI/index.js:88 | the digits read are a prefix of the text that no further digit extends |
| TodoStore.Load | CLI/index.js:8-25 | an absent file (`ENOENT`) loads as `{ tasks: [] }`; any other read error and any parse error is a failure carrying that error; parsed content loads unchanged |
| TodoStore.WithTaskArray | CLI/index.js:63-66 | afterwards `tasks` is an array; an existing array is untouched; a missing or non-array member becomes `[]`; other members keep their values |
| TodoStore.AddTask | CLI/index.js:63-67 | for a list of n tasks the result has n + 1 tasks, the first n unchanged and the last equal to the text; a missing or non-array list yields exactly `[text]`; other members unchanged |
| TodoStore.AddTaskAppends | CLI/index.js:67 | on an array, add is exactly `items + [text]` |
| TodoStore.RemoveAt | CLI/index.js:93 | splicing at i leaves n - 1 tasks: those before i unchanged, those after i moved up by one |
| TodoStore.RemoveAtMultiset | CLI/index.js:93 | the splice removes one occurrence of the removed task and nothing else |
| TodoStore.RemoveAtThenReinsert | CLI/index.js:93 | putting the removed task back at i rebuilds the original list |
| TodoStore.RemoveAtUndoesAddTask | CLI/index.js:93 | removing the last position after an add gives back the original list |
| Commands.AfterWrite | CLI/index.js:68-74 | the document is handed to the write; the success line is printed only when the write callback reports no error, and the write error line otherwise |
| Commands.NumberedLines | CLI/index.js:46-48 | one line per task, in order, line k reading "{first + k}. {items[k]}" |
| Commands.RenderTasks | CLI/index.js:42-49 | the output starts with `Todo List:`; an empty list adds exactly `  (No tasks found)`; otherwise line k + 1 is "{k + 1}. {items[k]}" for every task k |
| Commands.ListCommand | CLI/index.js:36-50 | list never writes; a read failure gives only the read error line; an array lists as `RenderTasks`; a missing or non-array `tasks` prints exactly `Todo List:` and crashes, except a value whose `length` is 0, which prints the header and `  (No tasks found)` and ends normally |
| Commands.AddCommand | CLI/index.js:57-76 | a read failure gives only the read error line and no write; otherwise the coerced-and-appended document is written, and `Task "<text>" added!` or the write error is reported |
| Commands.RemoveCommand | CLI/index.js:82-102 | on an array, a write happens iff `parseInt` gives p with 1 <= p <= n. Then the document with task p - 1 spliced out is written and `Removed task: "<that task>"` is reported once the write succeeds. Otherwise exactly `Invalid task number.` is printed and nothing is written. A read failure gives only the read error line. A missing or non-array list is never written. When p >= 1 is not beyond its numeric `length`, the run crashes with no output of its own; otherwise it prints exactly `Invalid task number.` |
| Commands.TaskLineReadsBack | CLI/index.js:47 | `parseInt` of a listed line gives its number, and the text after "N. " is the task |
| Commands.ListedNumberRemovesListedTask | CLI/index.js:88-99 | `remove k` splices out exactly the task listed as "k. …" and reports its text |
| Commands.RemoveAcceptsListedLine | CLI/index.js:88 | passing a whole listed line to remove acts like passing its number |
| Commands.RemoveReadsOnlyTheNumber | CLI/index.js:88-89 | two arguments with the same `parseInt` value have the same effect on remove |
| Commands.OutOfRangePositionsRejected | CLI/index.js:88-92 | position 0, position n + 1 and text that does not start a number each print `Invalid task number.` and write nothing |
| Commands.RemoveUndoesAdd | CLI/index.js:82-102 | removing the just-added task by its listed number writes back the document as it was before the add |
| Session.Step | CLI/index.js:28-30 | the file changes only after a successful write by add or remove, and then holds the written document; a failed read leaves the file alone and prints only the error line |
| Session.AddStep | CLI/index.js:57-76 | a successful add stores the added document and prints `Task "<text>" added!` |
| Session.RemoveStep | CLI/index.js:82-102 | a successful remove stores the shortened list and prints the removed task |
| Session.AddToArray | CLI/index.js:67 | an add to a stored array appends to it |
| Session.AddToNoFile | CLI/index.js:12-13 | an add with no file creates a file holding just that task |
| Session.AddEachAppends | CLI/index.js:67 | adding T1..Tn to a stored array appends them in order and leaves other members alone |
| Session.AddEachFromNoFile | CLI/index.js:67 | from no file, adding T1..Tn (n > 0) stores exactly T1..Tn |
| Session.ListAfterAdds | CLI/index.js:42-49 | from no file, adding T1..Tn and then listing prints "1. T1" .. "n. Tn" in order, or the placeholder when n = 0 |
| Session.ListWithoutFile | CLI/index.js:36-50 | listing with no file prints the header and the placeholder, and creates no file |
| Session.InvalidRemoveKeepsFile | CLI/index.js:89-92 | a rejected remove leaves the stored file exactly as it was |
| Session.ExampleAddMilk | CLI/index.js:67-73 | example: with no file, `add "buy milk"` stores `["buy milk"]` and prints `Task "buy milk" added!` |
| Session.ExampleAddReport | CLI/index.js:67-73 | example: `add "write report"` stores both tasks in order |
| Session.ExampleListBoth | CLI/index.js:42-48 | example: list prints `1. buy milk` and `2. write report` |
| Session.ExampleRemoveFirst | CLI/index.js:88-99 | example: `remove 1` stores `["write report"]` and prints `Removed task: "buy milk"` |
| Session.ExampleListRemaining | CLI/index.js:42-48 | example: the final list prints `1. write report` |

## Left out

- Real file I/O (`fs.readFile`, `fs.writeFile`). A read arrives as a `ReadResult` and a write's outcome as a `WriteStatus` parameter.
- `JSON.parse` and `JSON.stringify(…, null, 2)`. The document is taken as already parsed. `Session` assumes that a written document reads back unchanged. The JSON text format is not modelled.
- The argument parsing of the `commander` library and `program.parse`. Each command is given its argument text directly.
- Asynchronous callbacks, and the last-writer-wins race between concurrent invocations. Each command is one sequential step.
- How `console.error` formats an error object. The error is kept as opaque text after the fixed prefix.
- The stack trace Node prints for an uncaught exception. It is the `crashed` flag.
- A top-level JSON value that is not an object, such as `null`, a number or an array. The model's document is always an object.
- Array elements that are not strings. Tasks are texts. A non-string element would be printed through its template-literal conversion.
- Decimal.ParseInt: does not model floating-point rounding of digit runs beyond 2^53; the result is the exact integer. Such a number exceeds every array length, so for an array `tasks` the range check gives the same verdict. For a non-array `tasks` whose numeric `length` is 2^53 or more, the verdict can differ: with `length` 10^20, `remove 100000000000000000000` is rejected by JavaScript (`1e20 - 1` rounds to `1e20`) but reaches the crashing splice in the model.
- Commands.RemoveCommand: for a non-array `tasks` member, only integer `length` properties are modelled, as `NotArray(Some(n))`. A non-integer numeric `length` such as 0.5 cannot be written in the model. A non-numeric `length`, which JavaScript would coerce in the comparison, is treated as having no length.
- Session.Step: after a failed write the model keeps the previous file content. A real failed `writeFile` may leave the file truncated.
