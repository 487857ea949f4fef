# To-do list (littleScript.js) in Dafny

A model of the command-line to-do list in `littleScript.js`. The list is an
ordered sequence of tasks. Each task has a text and a done flag, and the
user names a task by its 1-based position. One invocation of the script
does four things. It loads the list from the store file. It routes the first
command-line word to `list`, `add`, `done` or `delete`. After a successful
change it saves the whole list again. It prints its messages to the console.

Files:

- `jstext.dfy`, module `JsText`: the pieces of the JavaScript runtime the
  script relies on. These are the decimal text of a position (`${i + 1}`),
  `parseInt(s, 10)` and `Array.prototype.join`. Each comes with a partner:
  the text of a number reads back as that number, a numeral parses back to
  its value, and splitting a joined text at the separator gives the parts back.
- `todo.dfy`, module `TodoList`:
  - the values: `Task`, and `Disk` for the store file (absent, unreadable
    with an error message, or holding a list);
  - the listing (`Listing`, computed line by line by `RenderList`);
  - the three changes as functions on sequences (`Added`, `MarkedDone`,
    `Deleted`);
  - the command dispatch as `ParseCommand` and `Execute`;
  - the class `TodoApp`. Its methods change the loaded list in place, as
    `addTodo`, `markDone` and `deleteTodo` do. `Run` is the top-level
    `switch`, and its postcondition ties the whole run to `Execute`.

Persistence is abstract. `saveTodos` appends the current list to the
ghost `saves` log, which exists only to state which paths save. How the
write ends is the constructor parameter `writeOutcome`: the whole list is
written and becomes the `disk` content; or writing fails before the file is
opened and the file stays as it was; or writing fails after opening has
truncated the file, which then holds a text that cannot be parsed. A failed
write prints one save-error line. `loadTodos` gives the stored list, or the
empty list when the file is absent or unreadable. Console output goes to two
logs of lines, `out` and `err`. An uncaught `TypeError` is the `crashed`
result.

The script does not reject bad input the way a reader might expect. The
model follows the code:

- A non-numeric index is not rejected. `parseInt` returns NaN, and every
  comparison with NaN is false, so the bounds check at littleScript.js:62
  and littleScript.js:72 lets NaN through. `done abc` then assigns to a
  field of `todos[NaN]`, which is undefined, and throws before saving.
  `delete abc` calls `splice(NaN, 1)`, which removes the first task. On an
  empty list it removes nothing, still saves, and then throws when it reads
  `removed[0].text`. A missing index word behaves the same, because
  `parseInt(undefined)` is NaN. See `NonNumericIndex`, `TodoApp.MarkDone`
  and `TodoApp.DeleteTodo`.
- Only `add` guarantees a non-empty task text (see `ParseCommand`). A
  loaded list is taken as it is, whatever its texts.

## Model

| member | source | states |
|---|---|---|
| `JsText.NatToString` | littleScript.js:50 | the position printed in a listing line is at least one decimal digit, with no leading zero except for 0 |
| `JsText.NatToStringRoundTrip` | littleScript.js:50 | reading the printed decimal text of a position back gives the position |
| `JsText.TrimStart` | littleScript.js:97 | parseInt skips exactly the leading white space: the result is a suffix, everything dropped is white space, and the result does not start with white space |
| `JsText.LeadingDigits` | littleScript.js:97 | parseInt reads the longest run of decimal digits: a prefix of digits that is followed by a non-digit or by the end |
| `JsText.ParseIntOfNumeral` | littleScript.js:97-100 | a numeral followed by a non-digit (or nothing) parses to the numeral's value |
| `JsText.ParseInt` | littleScript.js:97-100 | parseInt gives a number only when the word holds a decimal digit, so a word without digits is NaN |
| `JsText.Join` | littleScript.js:94 | joining no words gives the empty text; otherwise the joined task text starts with the first word, so it is at least as long as that word |
| `JsText.SplitJoin` | littleScript.js:94 | joining words with one separator character loses nothing when no word contains it: splitting gives the words back |
| `TodoList.Load` | littleScript.js:19-30 | a stored list loads as it is; anything else (no file, an unreadable file) loads as the empty list |
| `TodoList.LoadErrors` | littleScript.js:26-28 | a load reports at most one error line, exactly when the file is unreadable, "Fehler beim Laden: " followed by the reason |
| `TodoList.WrittenDisk` | littleScript.js:19-39 | what the next load gets from the file a write left behind: exactly the written list with no error after a full write; what the old file gave after a failure that left it alone; the empty list and one load error after a failure that truncated it |
| `TodoList.SaveErrors` | littleScript.js:33-39 | a save reports one line, "Fehler beim Speichern: " followed by the reason, exactly when the write fails |
| `TodoList.UnreadableStoreIsOverwritten` | littleScript.js:23-29 | an unreadable store loads as the empty list, and a following add saves a list holding only the new task |
| `TodoList.Status` | littleScript.js:49 | the status is three characters in brackets, with "x" inside when the task is done and a space otherwise |
| `TodoList.LineFormat` | littleScript.js:50 | the line `Line(n, t)` that the template builds is the position in decimal, ". [", "x" when done and a space otherwise, "] " and the task text |
| `TodoList.NumberedLines` | littleScript.js:48-51 | one line per task in list order, line i reading "<first+i>. <status> <text>" |
| `TodoList.Listing` | littleScript.js:42-52 | one line for an empty list, which is the empty-list message; otherwise the header and one more line per task |
| `TodoList.ListingShape` | littleScript.js:42-52 | an empty list prints only "Keine Aufgaben vorhanden."; otherwise the header and then "<i+1>. [x] <text>" or "<i+1>. [ ] <text>" for each task, in order |
| `TodoList.ListedNumberAddressesTask` | littleScript.js:50 | the number printed in front of a listed task parses back to a valid index for that same task |
| `TodoList.ListingAfterAdd` | littleScript.js:42-58 | after add, the listing is the old listing plus one "[ ]" line for the new task at the end; on an empty list the empty-list message is replaced by the header first |
| `TodoList.ListingAfterDone` | littleScript.js:48-51 | after done k, line k alone changes, to "[x]" with the same text |
| `TodoList.RenderList` | littleScript.js:42-52 | the line-by-line walk over the tasks prints exactly the listing |
| `TodoList.ValidIndex` | littleScript.js:62 | the bounds check passes exactly when index - 1 is a position of the list |
| `TodoList.Added` | littleScript.js:55 | push appends exactly one not-done task with the given text; every earlier task is unchanged |
| `TodoList.MarkedDone` | littleScript.js:66 | done sets the flag at position k, keeps its text, the length and every other task |
| `TodoList.Deleted` | littleScript.js:76 | splice removes one task: one shorter, earlier tasks in place, later tasks one position forward |
| `TodoList.DeleteUndoesAdd` | littleScript.js:55 | deleting the task just added restores the list |
| `TodoList.ReinsertUndoesDelete` | littleScript.js:76 | putting the deleted task back at its position restores the list |
| `TodoList.MarkedDoneIdempotent` | littleScript.js:66 | marking the same task done twice gives the same list as marking it once |
| `TodoList.IndexArgument` | littleScript.js:97-100 | a missing index word is NaN, and an index is a number only when the word holds a digit |
| `TodoList.ParseCommand` | littleScript.js:85-104 | list is the list command; add carries a text exactly when a non-empty second word is given, and is the missing-text case exactly when that word is absent or empty; the text starts with that word and is that word when it is the only one; done and delete carry parseInt of the second word; any other first word, or none, is the usage case |
| `TodoList.AddMissingNoChange` | littleScript.js:89-93 | add without a text, or with an empty one, prints only "Bitte eine Aufgabe angeben." and neither changes nor saves the list |
| `TodoList.AddTextKeepsWords` | littleScript.js:94 | the add text is the words joined with single spaces: splitting it at spaces gives the words back when no word contains a space |
| `TodoList.ListedNumberAsCommand` | littleScript.js:96-101 | typing the printed number after done or delete gives that integer index, which is valid |
| `TodoList.Execute` | littleScript.js:54-104 | an unsaved or crashed command leaves the list as it was; a crash prints nothing and comes only from done or delete with a non-numeric index; add grows the list by one, a delete that goes through shrinks it by one, and everything else keeps its length |
| `TodoList.SavesOnlyOnChange` | littleScript.js:56-77 | only add, done with a valid index, and delete with a valid or non-numeric index save; every unsaved or crashed path leaves the list unchanged |
| `TodoList.ListIsReadOnly` | littleScript.js:86-88 | list prints the listing and neither changes nor saves the list |
| `TodoList.OutOfRangeRejected` | littleScript.js:61-75 | indices 0 and length+1 print the invalid-index message and change nothing, for done and for delete |
| `TodoList.NonNumericIndex` | littleScript.js:61-78 | a non-numeric index reaches the operation: done crashes without saving, delete removes the first task |
| `TodoList.DeleteShiftsPositions` | littleScript.js:71-78 | deleting position 1 of [A, B] leaves [B] |
| `TodoList.MilchKaufenWords` | littleScript.js:5 | "Milch kaufen" as one quoted word or as two words gives the same add command |
| `TodoList.IndexOneWords` | littleScript.js:7-8 | the index word "1" after done or delete selects position 1 |
| `TodoList.MilchKaufenScenario` | littleScript.js:82-104 | fresh store, add "Milch kaufen", done 1, delete 1: the lists and the listings printed between the steps |
| `TodoList.TodoApp.constructor` | littleScript.js:16 | a run starts with the given store file and write behaviour, an empty list and empty logs |
| `TodoList.TodoApp.LoadTodos` | littleScript.js:19-30 | the loaded list is the stored one or empty, and an unreadable file adds one load-error line |
| `TodoList.TodoApp.SaveTodos` | littleScript.js:33-39 | the current list is recorded; the file becomes what the write outcome leaves (the list, the old content, or an unparseable truncated text), and a failed write adds one save-error line |
| `TodoList.TodoApp.ListTodos` | littleScript.js:42-52 | prints the listing and changes nothing else |
| `TodoList.TodoApp.AddTodo` | littleScript.js:54-58 | appends {text, done: false}, saves the new list, prints the confirmation with the text |
| `TodoList.TodoApp.MarkDone` | littleScript.js:61-69 | out of range: message only, no save; NaN: crash, nothing changed; valid: flag set at k-1, everything else kept, saved, text confirmed; in every case the list, output, saves, file and errors are those `Execute` gives for done |
| `TodoList.TodoApp.DeleteTodo` | littleScript.js:71-79 | out of range: message only, no save; valid: the list is old[..k-1] + old[k..], saved, removed text confirmed; NaN removes the first task, or saves and crashes on an empty list; in every case the list, output, saves, file and errors are those `Execute` gives for delete |
| `TodoList.SaveThenReload` | littleScript.js:19-39 | after a full write the next run over the file loads exactly the saved list with no load error; after a write that failed before opening the file it loads what the file held before; after a write that failed once the file was truncated it starts from the empty list and reports one load error |
| `TodoList.TodoApp.Run` | littleScript.js:82-104 | one invocation: load, then the state, output, saves, file and errors are exactly those `Execute` gives for the parsed command |

## Left out

- File-system access (`fs.existsSync`, `readFileSync`, `writeFileSync`, the `DATA_FILE` path) is I/O. The file is the `Disk` value, and how a write ends is the `writeOutcome` parameter.
- `JSON.parse` and `JSON.stringify` are library calls. The pretty-printed format is not modelled. A file that parses but holds something other than an array of `{text, done}` records is not modelled either: `Disk` has no such case.
- `console.log` and `console.error` are modelled as two separate logs of lines. How the two streams interleave is not modelled.
- An uncaught `TypeError` is only the `crashed` result. The stack trace and the exit code are not modelled.
- `process.argv` is the `args` parameter of `Run`. One `TodoApp` object is one invocation. A later invocation is a new object over the resulting `Disk`.
- `JsText.ParseInt`: does not round values above 2^53 to the nearest double. Such a value is still larger than any list length, so every bounds check comes out the same.
- `TodoList.TodoApp.SaveTodos`: a write that fails after the whole text reached the file (say, when closing it) is not a separate outcome. Such a failure is taken to leave the file untouched or truncated.
- `JsText.NatToString`: does not switch to exponent notation at 10^21. No list that long occurs.
- Two processes running at the same time against one store file are not modelled. The script has no locking, so the last writer wins.
