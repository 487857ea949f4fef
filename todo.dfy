/**
 The to-do list of littleScript.js: an ordered list of tasks, each a text
 and a done flag, addressed by its 1-based position. One invocation loads
 the list from the store file, routes the first command-line word to list,
 add, done or delete, saves the list again after a successful change, and
 writes its messages to the console.
 */
module TodoList {
  import opened JsText

  datatype Task = Task(text: string, done: bool)

  /** What the store file holds when the program starts: no file, a file
      that cannot be read or parsed (with the error message), or a list. */
  datatype Disk = Absent | Unreadable(reason: string) | Stored(tasks: seq<Task>)

  /** How writeFileSync ends: the whole text is written; it fails before
      the file is opened, which leaves the file as it was; or it fails after
      opening has truncated the file. A truncated file holds an empty or cut
      off text that JSON.parse rejects, with the given parse error. */
  datatype WriteOutcome =
    | Written
    | FailsUntouched(reason: string)
    | FailsTruncated(reason: string, parseError: string)

  // Console messages, as the program prints them.
  const EmptyMessage := "Keine Aufgaben vorhanden."
  const Header := "*** Aktuelle Aufgabenliste ***"
  const InvalidIndexMessage := "Ung\U{fc}ltiger Index."
  const MissingTextMessage := "Bitte eine Aufgabe angeben."
  const UsageMessage := "Befehle: list | add <text> | done <nr> | delete <nr>"

  function AddedMessage(text: string): string {
    "Aufgabe erfolgreich hinzugef\U{fc}gt: " + text
  }

  function DoneMessage(text: string): string {
    "Aufgabe erledigt: \"" + text + "\""
  }

  function DeletedMessage(text: string): string {
    "Gel\U{f6}scht: \"" + text + "\""
  }

  function LoadErrorMessage(reason: string): string {
    "Fehler beim Laden: " + reason
  }

  function SaveErrorMessage(reason: string): string {
    "Fehler beim Speichern: " + reason
  }

  // ---------------------------------------------------------------------
  // Persistence, abstracted

  /** The list a run starts from: the stored one, or empty when the file is
      missing or unreadable. */
  function Load(d: Disk): (r: seq<Task>)
    ensures d.Stored? ==> r == d.tasks
    ensures r != [] ==> d.Stored?
  {
    if d.Stored? then d.tasks else []
  }

  /** What a load reports on the error stream. */
  function LoadErrors(d: Disk): (r: seq<string>)
    ensures |r| <= 1 && (r != [] <==> d.Unreadable?)
    ensures d.Unreadable? ==> r == ["Fehler beim Laden: " + d.reason]
  {
    if d.Unreadable? then [LoadErrorMessage(d.reason)] else []
  }

  /** The store file after writing ts over d. What the next run loads from
      it: exactly ts after a full write; what d gave after a failure that left
      the file alone; the empty list and a load error after a failure that
      truncated it. */
  function WrittenDisk(d: Disk, ts: seq<Task>, w: WriteOutcome): (r: Disk)
    ensures Load(r) == (if w.Written? then ts else if w.FailsUntouched? then Load(d) else [])
    ensures LoadErrors(r) ==
      (if w.Written? then [] else if w.FailsUntouched? then LoadErrors(d) else [LoadErrorMessage(w.parseError)])
  {
    match w
    case Written => Stored(ts)
    case FailsUntouched(_) => d
    case FailsTruncated(_, parseError) => Unreadable(parseError)
  }

  /** What saveTodos reports on the error stream: one line for a failed
      write, nothing otherwise. */
  function SaveErrors(w: WriteOutcome): (r: seq<string>)
    ensures |r| <= 1 && (r == [] <==> w.Written?)
    ensures !w.Written? ==> r == ["Fehler beim Speichern: " + w.reason]
  {
    if w.Written? then [] else [SaveErrorMessage(w.reason)]
  }

  /** An unreadable store behaves like an empty one: the first change that
      is saved replaces the file's content with a list built from nothing. */
  lemma UnreadableStoreIsOverwritten(reason: string, text: string)
    ensures Load(Unreadable(reason)) == []
    ensures Execute(Load(Unreadable(reason)), AddCmd(text)) == Effect([Task(text, false)], true, [AddedMessage(text)], false)
  {
  }

  // ---------------------------------------------------------------------
  // Listing

  function Status(done: bool): (r: string)
    ensures |r| == 3 && r[0] == '[' && r[2] == ']'
    ensures r[1] == 'x' <==> done
    ensures r[1] == (if done then 'x' else ' ')
  {
    if done then "[x]" else "[ ]"
  }

  /** The line for the task at 1-based position n. */
  function Line(n: nat, t: Task): string {
    NatToString(n) + ". " + Status(t.done) + " " + t.text
  }

  /** A listing line is the position in decimal, ". ", the status in
      brackets ("x" exactly when done) and, after one space, the task text. */
  lemma LineFormat(n: nat, t: Task)
    ensures |Line(n, t)| == |NatToString(n)| + 6 + |t.text|
    ensures Line(n, t)[..|NatToString(n)|] == NatToString(n)
    ensures Line(n, t)[|NatToString(n)|..|NatToString(n)| + 3] == ". ["
    ensures Line(n, t)[|NatToString(n)| + 3] == 'x' <==> t.done
    ensures Line(n, t)[|NatToString(n)| + 3] == (if t.done then 'x' else ' ')
    ensures Line(n, t)[|NatToString(n)| + 4..|NatToString(n)| + 6] == "] "
    ensures Line(n, t)[|NatToString(n)| + 6..] == t.text
  {
  }

  /** One line per task, numbered from first on, in list order. */
  function NumberedLines(ts: seq<Task>, first: nat): (lines: seq<string>)
    ensures |lines| == |ts|
    ensures forall i :: 0 <= i < |ts| ==> lines[i] == Line(first + i, ts[i])
  {
    if ts == [] then [] else [Line(first, ts[0])] + NumberedLines(ts[1..], first + 1)
  }

  /** What the list command prints. */
  function Listing(ts: seq<Task>): (lines: seq<string>)
    ensures |lines| == (if ts == [] then 1 else |ts| + 1)
    ensures lines[0] == (if ts == [] then EmptyMessage else Header)
  {
    if ts == [] then [EmptyMessage] else [Header] + NumberedLines(ts, 1)
  }

  /** The listing is the empty-list message alone, or the header followed by
      "<i+1>. [x] <text>" or "<i+1>. [ ] <text>" for the task at index i. */
  lemma ListingShape(ts: seq<Task>)
    ensures ts == [] ==> Listing(ts) == [EmptyMessage]
    ensures ts != [] ==> |Listing(ts)| == |ts| + 1 && Listing(ts)[0] == Header
    ensures forall i :: 0 <= i < |ts| ==>
      Listing(ts)[i + 1] == NatToString(i + 1) + ". " + (if ts[i].done then "[x]" else "[ ]") + " " + ts[i].text
  {
    forall i | 0 <= i < |ts|
      ensures Listing(ts)[i + 1] == NatToString(i + 1) + ". " + (if ts[i].done then "[x]" else "[ ]") + " " + ts[i].text
    {
      assert Listing(ts)[i + 1] == Line(i + 1, ts[i]);
    }
  }

  /** The number in front of a listed line, typed back as an index, is a
      valid index that addresses the task on that line. */
  lemma ListedNumberAddressesTask(ts: seq<Task>, i: nat)
    requires i < |ts|
    ensures ParseInt(Listing(ts)[i + 1]) == Int(i + 1)
    ensures ValidIndex(ts, i + 1) && ts[(i + 1) - 1] == ts[i]
  {
    var num := NatToString(i + 1);
    var rest := ". " + Status(ts[i].done) + " " + ts[i].text;
    assert rest[0] == '.';
    assert Listing(ts)[i + 1] == Line(i + 1, ts[i]);
    ConcatAssoc(num, ". ", Status(ts[i].done), " ", ts[i].text);
    ParseIntOfNumeral(i + 1, rest);
  }

  lemma ConcatAssoc(a: string, b: string, c: string, d: string, e: string)
    ensures a + b + c + d + e == a + (b + c + d + e)
  {
  }

  /** Adding a task prints one more line at the end of the listing, and
      every earlier line stays as it was. */
  lemma ListingAfterAdd(ts: seq<Task>, text: string)
    ensures Listing(Added(ts, text)) ==
      (if ts == [] then [Header] else Listing(ts)) + [Line(|ts| + 1, Task(text, false))]
  {
    var t := Task(text, false);
    var a := Added(ts, text);
    assert a == ts + [t];
    NumberedLinesAppend(ts, t, 1);
    var lines := NumberedLines(ts, 1);
    assert Listing(a) == [Header] + (lines + [Line(|ts| + 1, t)]);
    assert [Header] + (lines + [Line(|ts| + 1, t)]) == ([Header] + lines) + [Line(|ts| + 1, t)];
    if ts == [] {
      assert lines == [];
    } else {
      assert Listing(ts) == [Header] + lines;
    }
  }

  lemma NumberedLinesAppend(ts: seq<Task>, t: Task, first: nat)
    ensures NumberedLines(ts + [t], first) == NumberedLines(ts, first) + [Line(first + |ts|, t)]
  {
    var longer := NumberedLines(ts + [t], first);
    var shorter := NumberedLines(ts, first);
    forall i | 0 <= i < |longer|
      ensures longer[i] == (shorter + [Line(first + |ts|, t)])[i]
    {
      if i < |ts| {
        assert (ts + [t])[i] == ts[i];
      }
    }
  }

  /** Marking a task done changes its line, and only its line, to "[x]". */
  lemma ListingAfterDone(ts: seq<Task>, k: int)
    requires ValidIndex(ts, k)
    ensures |Listing(MarkedDone(ts, k))| == |Listing(ts)|
    ensures Listing(MarkedDone(ts, k))[k] == Line(k, Task(ts[k - 1].text, true))
    ensures forall j :: 0 <= j < |Listing(ts)| && j != k ==> Listing(MarkedDone(ts, k))[j] == Listing(ts)[j]
  {
  }

  /** The listing of tasks, computed line by line as the forEach walk of
      listTodos does. */
  method RenderList(ts: seq<Task>) returns (lines: seq<string>)
    ensures lines == Listing(ts)
  {
    if |ts| == 0 {
      return [EmptyMessage];
    }
    lines := [Header];
    var i := 0;
    while i < |ts|
      invariant 0 <= i <= |ts|
      invariant |lines| == i + 1 && lines[0] == Header
      invariant forall j :: 0 <= j < i ==> lines[j + 1] == Line(j + 1, ts[j])
    {
      var status := if ts[i].done then "[x]" else "[ ]";
      lines := lines + [NatToString(i + 1) + ". " + status + " " + ts[i].text];
      i := i + 1;
    }
    var numbered := NumberedLines(ts, 1);
    assert lines == [Header] + numbered by {
      forall j | 1 <= j < |lines| ensures lines[j] == ([Header] + numbered)[j] {
        assert numbered[j - 1] == Line(j, ts[j - 1]);
      }
    }
  }

  // ---------------------------------------------------------------------
  // The three changes, on values

  /** The script's bounds check: neither below 1 nor above the length. */
  predicate ValidIndex(ts: seq<Task>, k: int): (ok: bool)
    ensures ok <==> 0 <= k - 1 < |ts|
  {
    !(k < 1 || k > |ts|)
  }

  /** The list after push({text, done: false}). */
  function Added(ts: seq<Task>, text: string): (r: seq<Task>)
    ensures |r| == |ts| + 1
    ensures r[|ts|] == Task(text, false)
    ensures r[..|ts|] == ts
  {
    ts + [Task(text, false)]
  }

  /** The list after todos[k - 1].done = true. */
  function MarkedDone(ts: seq<Task>, k: int): (r: seq<Task>)
    requires ValidIndex(ts, k)
    ensures |r| == |ts|
    ensures r[k - 1] == Task(ts[k - 1].text, true)
    ensures forall j :: 0 <= j < |ts| && j != k - 1 ==> r[j] == ts[j]
  {
    ts[k - 1 := ts[k - 1].(done := true)]
  }

  /** The list after splice(k - 1, 1): one shorter, the tasks before position
      k in place, every task after it one position further forward. */
  function Deleted(ts: seq<Task>, k: int): (r: seq<Task>)
    requires ValidIndex(ts, k)
    ensures |r| == |ts| - 1
    ensures forall j :: 0 <= j < k - 1 ==> r[j] == ts[j]
    ensures forall j :: k - 1 <= j < |r| ==> r[j] == ts[j + 1]
  {
    ts[..k - 1] + ts[k..]
  }

  /** Deleting the task just added gives the list back. */
  lemma DeleteUndoesAdd(ts: seq<Task>, text: string)
    ensures ValidIndex(Added(ts, text), |ts| + 1)
    ensures Deleted(Added(ts, text), |ts| + 1) == ts
  {
  }

  /** Putting the deleted task back at its position gives the list back. */
  lemma ReinsertUndoesDelete(ts: seq<Task>, k: int)
    requires ValidIndex(ts, k)
    ensures Deleted(ts, k)[..k - 1] + [ts[k - 1]] + Deleted(ts, k)[k - 1..] == ts
  {
  }

  /** Marking the same task done a second time changes nothing more. */
  lemma MarkedDoneIdempotent(ts: seq<Task>, k: int)
    requires ValidIndex(ts, k)
    ensures ValidIndex(MarkedDone(ts, k), k)
    ensures MarkedDone(MarkedDone(ts, k), k) == MarkedDone(ts, k)
  {
  }

  // ---------------------------------------------------------------------
  // The command dispatch

  /** The first command-line word and what follows it, as the switch reads
      them. An index is parseInt of the second word (of undefined, which is
      NaN, when it is missing). */
  datatype Command =
    | ListCmd
    | AddCmd(text: string)
    | AddMissing
    | DoneCmd(index: IntOrNaN)
    | DeleteCmd(index: IntOrNaN)
    | UsageCmd

  /** parseInt(args[1], 10); a missing word is undefined, which parses to NaN. */
  function IndexArgument(args: seq<string>): (r: IntOrNaN)
    ensures |args| < 2 ==> r.NaN?
    ensures r.Int? ==> |args| >= 2 && exists k :: 0 <= k < |args[1]| && IsDigit(args[1][k])
  {
    if |args| < 2 then NaN else ParseInt(args[1])
  }

  function ParseCommand(args: seq<string>): (cmd: Command)
    ensures cmd.AddCmd? <==> |args| >= 2 && args[0] == "add" && args[1] != ""
    ensures cmd.AddCmd? ==> cmd.text != "" && |args[1]| <= |cmd.text| && cmd.text[..|args[1]|] == args[1]
    ensures cmd.AddCmd? && |args| == 2 ==> cmd.text == args[1]
    ensures cmd == AddMissing <==> |args| >= 1 && args[0] == "add" && (|args| < 2 || args[1] == "")
    ensures cmd == ListCmd <==> |args| >= 1 && args[0] == "list"
    ensures |args| >= 1 && args[0] == "done" ==> cmd == DoneCmd(IndexArgument(args))
    ensures |args| >= 1 && args[0] == "delete" ==> cmd == DeleteCmd(IndexArgument(args))
    ensures cmd.UsageCmd? <==> |args| == 0 || args[0] !in {"list", "add", "done", "delete"}
  {
    if |args| == 0 then UsageCmd
    else if args[0] == "list" then ListCmd
    else if args[0] == "add" then
      if |args| < 2 || args[1] == "" then AddMissing
      else AddCmd(Join(args[1..], " "))
    else if args[0] == "done" then DoneCmd(IndexArgument(args))
    else if args[0] == "delete" then DeleteCmd(IndexArgument(args))
    else UsageCmd
  }

  /** add without a text, or with an empty one, only prints the reminder:
      nothing is changed or saved. */
  lemma AddMissingNoChange(ts: seq<Task>, args: seq<string>)
    requires |args| >= 1 && args[0] == "add" && (|args| < 2 || args[1] == "")
    ensures Execute(ts, ParseCommand(args)) == Effect(ts, false, [MissingTextMessage], false)
  {
  }

  /** The task text of add keeps the typed words: when none of them holds a
      space, cutting the text at its spaces gives the words back. */
  lemma AddTextKeepsWords(args: seq<string>)
    requires |args| >= 2 && args[0] == "add" && args[1] != ""
    requires forall k, i :: 1 <= k < |args| && 0 <= i < |args[k]| ==> args[k][i] != ' '
    ensures ParseCommand(args).AddCmd? && Split(ParseCommand(args).text, ' ') == args[1..]
  {
    SplitJoin(args[1..], ' ');
  }

  /** The number printed in front of a listed task, passed to done or delete,
      names that task's position. */
  lemma ListedNumberAsCommand(ts: seq<Task>, i: nat)
    requires i < |ts|
    ensures ParseCommand(["done", NatToString(i + 1)]) == DoneCmd(Int(i + 1))
    ensures ParseCommand(["delete", NatToString(i + 1)]) == DeleteCmd(Int(i + 1))
    ensures ValidIndex(ts, i + 1)
  {
    ParseIntOfNumeral(i + 1, "");
    assert NatToString(i + 1) + "" == NatToString(i + 1);
  }

  /** What one command does to the loaded list: the list afterwards, whether
      it was saved, what it printed, and whether it ended in an uncaught
      TypeError. */
  datatype Effect = Effect(tasks: seq<Task>, saved: bool, out: seq<string>, crashed: bool)

  function Execute(ts: seq<Task>, cmd: Command): (e: Effect)
    ensures !e.saved || e.crashed ==> e.tasks == ts
    ensures e.crashed ==> e.out == [] && (cmd.DoneCmd? || cmd.DeleteCmd?) && cmd.index.NaN?
    ensures |e.tasks| == |ts| + (if cmd.AddCmd? then 1 else if e.saved && !e.crashed && cmd.DeleteCmd? then -1 else 0)
  {
    match cmd
    case ListCmd => Effect(ts, false, Listing(ts), false)
    case AddMissing => Effect(ts, false, [MissingTextMessage], false)
    case UsageCmd => Effect(ts, false, [UsageMessage], false)
    case AddCmd(text) => Effect(Added(ts, text), true, [AddedMessage(text)], false)
    case DoneCmd(NaN) =>
      // The bounds check lets NaN through; todos[NaN] is undefined and
      // setting its done field throws before anything is saved.
      Effect(ts, false, [], true)
    case DoneCmd(Int(k)) =>
      if !ValidIndex(ts, k) then Effect(ts, false, [InvalidIndexMessage], false)
      else Effect(MarkedDone(ts, k), true, [DoneMessage(ts[k - 1].text)], false)
    case DeleteCmd(NaN) =>
      // splice(NaN, 1) removes the first task; on an empty list nothing is
      // removed, the list is still saved, and reading removed[0].text throws.
      if ts == [] then Effect(ts, true, [], true)
      else Effect(Deleted(ts, 1), true, [DeletedMessage(ts[0].text)], false)
    case DeleteCmd(Int(k)) =>
      if !ValidIndex(ts, k) then Effect(ts, false, [InvalidIndexMessage], false)
      else Effect(Deleted(ts, k), true, [DeletedMessage(ts[k - 1].text)], false)
  }

  /** Only add, done and delete save, and only on their success paths (and,
      for delete, when the index is not a number); every other path leaves the
      list as it was. */
  lemma SavesOnlyOnChange(ts: seq<Task>, cmd: Command)
    ensures Execute(ts, cmd).saved <==>
      cmd.AddCmd?
      || (cmd.DoneCmd? && cmd.index.Int? && ValidIndex(ts, cmd.index.value))
      || (cmd.DeleteCmd? && (cmd.index.NaN? || ValidIndex(ts, cmd.index.value)))
    ensures !Execute(ts, cmd).saved ==> Execute(ts, cmd).tasks == ts
    ensures Execute(ts, cmd).crashed ==> Execute(ts, cmd).tasks == ts
  {
  }

  /** list never changes or saves the list. */
  lemma ListIsReadOnly(ts: seq<Task>)
    ensures Execute(ts, ListCmd) == Effect(ts, false, Listing(ts), false)
  {
  }

  /** Indices 0 and length + 1 are both rejected with the invalid-index
      message, by done and by delete alike. */
  lemma OutOfRangeRejected(ts: seq<Task>)
    ensures Execute(ts, DoneCmd(Int(0))) == Effect(ts, false, [InvalidIndexMessage], false)
    ensures Execute(ts, DoneCmd(Int(|ts| + 1))) == Effect(ts, false, [InvalidIndexMessage], false)
    ensures Execute(ts, DeleteCmd(Int(0))) == Effect(ts, false, [InvalidIndexMessage], false)
    ensures Execute(ts, DeleteCmd(Int(|ts| + 1))) == Effect(ts, false, [InvalidIndexMessage], false)
  {
  }

  /** A non-numeric index is not rejected: done crashes without saving and
      delete removes the first task. */
  lemma NonNumericIndex(ts: seq<Task>, word: string)
    requires forall i :: 0 <= i < |word| ==> !IsDigit(word[i])
    ensures ParseCommand(["done", word]) == DoneCmd(NaN)
    ensures Execute(ts, DoneCmd(NaN)) == Effect(ts, false, [], true)
    ensures ts != [] ==> Execute(ts, ParseCommand(["delete", word])).tasks == ts[1..]
  {
  }

  /** Deleting position 1 of [A, B] leaves [B]: the later task moves up. */
  lemma DeleteShiftsPositions(a: Task, b: Task)
    ensures Execute([a, b], DeleteCmd(Int(1))).tasks == [b]
  {
  }

  /** The text "Milch kaufen" typed as one quoted word or as two words gives
      the same add command. */
  lemma MilchKaufenWords()
    ensures ParseCommand(["add", "Milch", "kaufen"]) == AddCmd("Milch kaufen")
    ensures ParseCommand(["add", "Milch kaufen"]) == AddCmd("Milch kaufen")
  {
    assert Join(["Milch", "kaufen"], " ") == "Milch kaufen";
  }

  /** The index word "1" selects position 1. */
  lemma IndexOneWords()
    ensures ParseCommand(["done", "1"]) == DoneCmd(Int(1))
    ensures ParseCommand(["delete", "1"]) == DeleteCmd(Int(1))
  {
    assert NatToString(1) == "1";
    ParseIntOfNumeral(1, "");
    assert "1" + "" == "1";
  }

  /** The listings of the one-task lists the scenario goes through. */
  lemma MilchKaufenListings()
    ensures Listing([Task("Milch kaufen", false)]) == [Header, "1. [ ] Milch kaufen"]
    ensures Listing([Task("Milch kaufen", true)]) == [Header, "1. [x] Milch kaufen"]
  {
    assert NatToString(1) == "1";
    var open, closed := Task("Milch kaufen", false), Task("Milch kaufen", true);
    assert NumberedLines([open], 1) == [Line(1, open)];
    assert NumberedLines([closed], 1) == [Line(1, closed)];
    assert Line(1, open) == "1. [ ] Milch kaufen";
    assert Line(1, closed) == "1. [x] Milch kaufen";
  }

  /** A fresh store, then add "Milch kaufen" (one quoted word, as in the
      script's usage notes), list, done 1, list, delete 1, list: each step
      from the list the previous one saved. Typing the text unquoted, as two
      words, adds the same task. */
  lemma MilchKaufenScenario()
    ensures ParseCommand(["add", "Milch", "kaufen"]) == ParseCommand(["add", "Milch kaufen"])
    ensures
      var milk := "Milch kaufen";
      var s1 := Execute(Load(Absent), ParseCommand(["add", "Milch kaufen"]));
      var s2 := Execute(s1.tasks, ParseCommand(["done", "1"]));
      var s3 := Execute(s2.tasks, ParseCommand(["delete", "1"]));
      && s1.tasks == [Task(milk, false)] && s1.saved
      && Execute(s1.tasks, ParseCommand(["list"])).out == [Header, "1. [ ] Milch kaufen"]
      && s2.tasks == [Task(milk, true)] && s2.saved
      && Execute(s2.tasks, ParseCommand(["list"])).out == [Header, "1. [x] Milch kaufen"]
      && s3.tasks == [] && s3.saved
      && Execute(s3.tasks, ParseCommand(["list"])).out == [EmptyMessage]
  {
    var milk := "Milch kaufen";
    MilchKaufenWords();
    IndexOneWords();
    assert ParseCommand(["list"]) == ListCmd;
    var t1 := [Task(milk, false)];
    var t2 := [Task(milk, true)];
    assert Execute([], AddCmd(milk)).tasks == t1;
    assert Execute(t1, DoneCmd(Int(1))).tasks == t2;
    assert Execute(t2, DeleteCmd(Int(1))).tasks == [];
    MilchKaufenListings();
    var s1 := Execute(Load(Absent), ParseCommand(["add", "Milch kaufen"]));
    assert s1.tasks == t1 && s1.saved;
    var s2 := Execute(s1.tasks, ParseCommand(["done", "1"]));
    assert s2.tasks == t2 && s2.saved;
    var s3 := Execute(s2.tasks, ParseCommand(["delete", "1"]));
    assert s3.tasks == [] && s3.saved;
  }

  // ---------------------------------------------------------------------
  // The program state and its in-place operations

  /** One run of the script: the store file, whether writing it fails (and
      with what message), the loaded list, the two console streams, and
      every list handed to saveTodos, in order. */
  class TodoApp {
    var disk: Disk
    const writeOutcome: WriteOutcome
    var todos: seq<Task>
    var out: seq<string>
    var err: seq<string>
    ghost var saves: seq<seq<Task>>

    constructor (disk: Disk, writeOutcome: WriteOutcome)
      ensures this.disk == disk && this.writeOutcome == writeOutcome
      ensures todos == [] && out == [] && err == [] && saves == []
    {
      this.disk := disk;
      this.writeOutcome := writeOutcome;
      todos := [];
      out := [];
      err := [];
      saves := [];
    }

    /** loadTodos: the stored list, or empty (with an error message when the
        file exists but cannot be read or parsed). */
    method LoadTodos()
      modifies this`todos, this`err
      ensures todos == Load(disk)
      ensures err == old(err) + LoadErrors(disk)
    {
      match disk
      case Absent =>
        todos := [];
      case Unreadable(reason) =>
        err := err + [LoadErrorMessage(reason)];
        todos := [];
      case Stored(tasks) =>
        todos := tasks;
    }

    /** saveTodos: the current list is recorded and, unless writing fails,
        becomes the file's content; a failure is reported and swallowed. */
    method SaveTodos()
      modifies this`disk, this`saves, this`err
      ensures saves == old(saves) + [todos]
      ensures disk == WrittenDisk(old(disk), todos, writeOutcome)
      ensures err == old(err) + SaveErrors(writeOutcome)
    {
      saves := saves + [todos];
      match writeOutcome
      case Written =>
        disk := Stored(todos);
      case FailsUntouched(reason) =>
        err := err + [SaveErrorMessage(reason)];
      case FailsTruncated(reason, parseError) =>
        disk := Unreadable(parseError);
        err := err + [SaveErrorMessage(reason)];
    }

    /** listTodos: prints the listing and changes nothing. */
    method ListTodos()
      modifies this`out
      ensures out == old(out) + Listing(todos)
    {
      var lines := RenderList(todos);
      out := out + lines;
    }

    /** addTodo: appends a not-done task, saves, confirms. */
    method AddTodo(text: string)
      modifies this`todos, this`disk, this`saves, this`err, this`out
      ensures todos == Added(old(todos), text)
      ensures |todos| == |old(todos)| + 1 && todos[|todos| - 1] == Task(text, false)
      ensures forall j :: 0 <= j < |old(todos)| ==> todos[j] == old(todos)[j]
      ensures saves == old(saves) + [todos]
      ensures disk == WrittenDisk(old(disk), todos, writeOutcome)
      ensures err == old(err) + SaveErrors(writeOutcome)
      ensures out == old(out) + [AddedMessage(text)]
    {
      todos := todos + [Task(text, false)];
      SaveTodos();
      out := out + [AddedMessage(text)];
    }

    /** markDone: an index outside 1..length is reported and nothing else
        happens; NaN gets past the check and the field assignment throws;
        otherwise the task at that position is marked done, the list saved
        and the task's text confirmed. */
    method MarkDone(index: IntOrNaN) returns (crashed: bool)
      modifies this`todos, this`disk, this`saves, this`err, this`out
      ensures crashed <==> index.NaN?
      ensures index.NaN? || !ValidIndex(old(todos), index.value) ==>
        todos == old(todos) && saves == old(saves) && disk == old(disk) && err == old(err)
      ensures index.NaN? ==> out == old(out)
      ensures index.Int? && !ValidIndex(old(todos), index.value) ==> out == old(out) + [InvalidIndexMessage]
      ensures index.Int? && ValidIndex(old(todos), index.value) ==>
        var k := index.value;
        && todos == MarkedDone(old(todos), k)
        && |todos| == |old(todos)| && todos[k - 1] == Task(old(todos)[k - 1].text, true)
        && (forall j :: 0 <= j < |todos| && j != k - 1 ==> todos[j] == old(todos)[j])
        && saves == old(saves) + [todos]
        && disk == WrittenDisk(old(disk), todos, writeOutcome)
        && err == old(err) + SaveErrors(writeOutcome)
        && out == old(out) + [DoneMessage(old(todos)[k - 1].text)]
      ensures
        var e := Execute(old(todos), DoneCmd(index));
        && todos == e.tasks && crashed == e.crashed && out == old(out) + e.out
        && saves == old(saves) + (if e.saved then [e.tasks] else [])
        && disk == (if e.saved then WrittenDisk(old(disk), e.tasks, writeOutcome) else old(disk))
        && err == old(err) + (if e.saved then SaveErrors(writeOutcome) else [])
    {
      match index
      case NaN =>
        crashed := true;
      case Int(k) =>
        crashed := false;
        if k < 1 || k > |todos| {
          out := out + [InvalidIndexMessage];
          return;
        }
        todos := todos[k - 1 := todos[k - 1].(done := true)];
        SaveTodos();
        out := out + [DoneMessage(todos[k - 1].text)];
    }

    /** deleteTodo: an index outside 1..length is reported and nothing else
        happens; otherwise the task at that position is spliced out, the list
        saved and the removed text confirmed. NaN gets past the check and
        splice treats it as 0: the first task goes, and on an empty list the
        (unchanged) list is saved before reading the removed text throws. */
    method DeleteTodo(index: IntOrNaN) returns (crashed: bool)
      modifies this`todos, this`disk, this`saves, this`err, this`out
      ensures crashed <==> index.NaN? && old(todos) == []
      ensures index.Int? && !ValidIndex(old(todos), index.value) ==>
        todos == old(todos) && saves == old(saves) && disk == old(disk) && err == old(err)
        && out == old(out) + [InvalidIndexMessage]
      ensures index.NaN? && old(todos) == [] ==>
        todos == [] && saves == old(saves) + [[]] && out == old(out)
        && disk == WrittenDisk(old(disk), [], writeOutcome)
        && err == old(err) + SaveErrors(writeOutcome)
      ensures !crashed && (index.NaN? || ValidIndex(old(todos), index.value)) ==>
        var k := if index.NaN? then 1 else index.value;
        && todos == Deleted(old(todos), k)
        && |todos| == |old(todos)| - 1
        && todos == old(todos)[..k - 1] + old(todos)[k..]
        && saves == old(saves) + [todos]
        && disk == WrittenDisk(old(disk), todos, writeOutcome)
        && err == old(err) + SaveErrors(writeOutcome)
        && out == old(out) + [DeletedMessage(old(todos)[k - 1].text)]
      ensures
        var e := Execute(old(todos), DeleteCmd(index));
        && todos == e.tasks && crashed == e.crashed && out == old(out) + e.out
        && saves == old(saves) + (if e.saved then [e.tasks] else [])
        && disk == (if e.saved then WrittenDisk(old(disk), e.tasks, writeOutcome) else old(disk))
        && err == old(err) + (if e.saved then SaveErrors(writeOutcome) else [])
    {
      var k: int;
      match index {
        case NaN =>
          k := 1;
        case Int(n) =>
          if n < 1 || n > |todos| {
            out := out + [InvalidIndexMessage];
            return false;
          }
          k := n;
      }
      if todos == [] {
        SaveTodos();
        return true;
      }
      var removed := todos[k - 1];
      todos := todos[..k - 1] + todos[k..];
      SaveTodos();
      out := out + [DeletedMessage(removed.text)];
      crashed := false;
    }

    /** The whole script: load the list, then route the first word. */
    method Run(args: seq<string>) returns (crashed: bool)
      modifies this
      ensures
        var e := Execute(Load(old(disk)), ParseCommand(args));
        && todos == e.tasks
        && crashed == e.crashed
        && out == old(out) + e.out
        && saves == old(saves) + (if e.saved then [e.tasks] else [])
        && disk == (if e.saved then WrittenDisk(old(disk), e.tasks, writeOutcome) else old(disk))
        && err == old(err) + LoadErrors(old(disk)) + (if e.saved then SaveErrors(writeOutcome) else [])
    {
      LoadTodos();
      crashed := false;
      ghost var cmd := ParseCommand(args);
      if |args| == 0 {
        assert cmd == UsageCmd;
        out := out + [UsageMessage];
      } else if args[0] == "list" {
        assert cmd == ListCmd;
        ListTodos();
      } else if args[0] == "add" {
        if |args| < 2 || args[1] == "" {
          assert cmd == AddMissing;
          out := out + [MissingTextMessage];
        } else {
          assert cmd == AddCmd(Join(args[1..], " "));
          AddTodo(Join(args[1..], " "));
        }
      } else if args[0] == "done" {
        assert cmd == DoneCmd(IndexArgument(args));
        crashed := MarkDone(IndexArgument(args));
      } else if args[0] == "delete" {
        assert cmd == DeleteCmd(IndexArgument(args));
        crashed := DeleteTodo(IndexArgument(args));
      } else {
        assert cmd == UsageCmd;
        out := out + [UsageMessage];
      }
    }
  }

  /** Saving a list and starting the next run over the file it left behind:
      the next run loads exactly the saved list, with no load error, after a
      full write; what the file held before after a write that failed without
      touching it; and the empty list, with a load error, after a write that
      failed once the file was truncated. */
  method SaveThenReload(app: TodoApp) returns (next: TodoApp)
    modifies app
    ensures fresh(next)
    ensures next.disk == app.disk && next.writeOutcome == app.writeOutcome
    ensures app.writeOutcome.Written? ==> next.todos == old(app.todos) && next.err == []
    ensures app.writeOutcome.FailsUntouched? ==>
      next.todos == Load(old(app.disk)) && next.err == LoadErrors(old(app.disk))
    ensures app.writeOutcome.FailsTruncated? ==>
      next.todos == [] && next.err == [LoadErrorMessage(app.writeOutcome.parseError)]
  {
    app.SaveTodos();
    next := new TodoApp(app.disk, app.writeOutcome);
    next.LoadTodos();
  }
}
