/**
 * `execute_command`: looks the command word up in the registry, stops on
 * `exit`/`close`, otherwise runs the handler against the book its category
 * names and saves that book when the command's flag asks for it.
 */
module Dispatch {
  import opened Errors
  import opened Text
  import opened Contacts
  import opened Notes
  import opened Commands
  import opened Registry

  /** What a command hands back to the main loop for display. */
  datatype Reply =
    | Message(text: string)
    | NoteList(notes: seq<Note>)
    | HelpTable(groups: seq<(Category, seq<Command>)>)

  /** The course `execute_command` takes for a command word. */
  datatype Step =
    | Suggest
    | Stop
    | Run(cmd: Command)
    | UnknownCategory(category: Category)

  /**
   * An unknown word gets a suggestion; a known `exit` or `close` stops the
   * loop before any handler runs; a command in one of the three categories
   * runs; any other category is reported.
   */
  function Plan(reg: CommandRegistry, name: string): (s: Step)
    reads reg
    ensures s.Suggest? <==> !reg.IsValidCommand(name)
    ensures s.Stop? <==> reg.IsValidCommand(name) && (name == "exit" || name == "close")
    ensures s.Run? ==> s.cmd == reg.commands[name] && s.cmd.category in Categories && name != "exit" && name != "close"
    ensures s.UnknownCategory? ==> s.category == reg.commands[name].category && s.category !in Categories
  {
    match reg.GetCommand(name)
    case None => Suggest
    case Some(cmd) =>
      if name == "exit" || name == "close" then Stop
      else if cmd.category in Categories then Run(cmd)
      else UnknownCategory(cmd.category)
  }

  /** The message Python gives when a handler name the registry refers to is not defined. */
  function NotDefined(functionName: string): string {
    "name '" + functionName + "' is not defined"
  }

  /** The reply to an exception that escapes the handler. */
  function Failure(msg: string): Reply {
    Message("Error executing command: " + msg)
  }

  /** Whether running `s` saves the address book: its flag is set and its handler returned. */
  predicate SavesAddressBook(s: Step) {
    s.Run? && s.cmd.category == AddressBookCategory && s.cmd.saveAddressBook && !s.cmd.handler.Unavailable?
  }

  /** Whether running `s` saves the note book. */
  predicate SavesNoteBook(s: Step) {
    s.Run? && s.cmd.category == NoteBookCategory && s.cmd.saveNoteBook && !s.cmd.handler.Unavailable?
  }

  /** `input_error` applied to `sort_notes_by_tag`, whose normal result is the list of notes. */
  function NotesReply(o: Outcome<seq<Note>>): Reply {
    match o
    case Ok(ns) => NoteList(ns)
    case Raised(e) => Message(ErrorMessage(e))
  }

  /** A General command: `handler(args)`. */
  method RunGeneral(reg: CommandRegistry, cmd: Command, args: seq<string>) returns (reply: Reply)
    requires reg.Valid()
    requires cmd.category == GeneralCategory && WellFormed(cmd)
    ensures cmd.handler == HelpHandler ==> reply == HelpTable(HelpGroups(reg.Entries(), Categories))
    ensures cmd.handler == ExitHandler ==> reply == Message("exit")
    ensures cmd.handler.Unavailable? ==> reply == Failure(NotDefined(cmd.handler.function_name))
  {
    match cmd.handler
    case HelpHandler =>
      var groups := reg.GetHelpGroups();
      reply := HelpTable(groups);
    case ExitHandler =>
      reply := Message("exit");
    case Unavailable(f) =>
      reply := Failure(NotDefined(f));
    case _ =>
      assert false;
  }

  /** The Address Book handlers that change the book. */
  predicate WritesAddressBook(h: Handler) {
    h == AddContactHandler || h == DeleteContactHandler
  }

  /** What a book-changing handler does to the book and replies: its own outcome through `input_error` and its own effect. */
  twostate predicate AddressBookWritten(cmd: Command, args: seq<string>, book: AddressBook, new reply: Reply)
    reads book, book.data.Values
  {
    && (cmd.handler == AddContactHandler ==>
          reply == Message(InputError(old(AddContactOutcome(args, book)))) && AddContactEffect(args, book))
    && (cmd.handler == DeleteContactHandler ==>
          reply == Message(InputError(old(DeleteContactOutcome(args, book)))) && DeleteContactEffect(args, book))
  }

  /** What a handler that only reads the book, or a missing one, replies; the book stays as it was. */
  twostate predicate AddressBookRead(cmd: Command, args: seq<string>, book: AddressBook, new reply: Reply)
    requires old(book.Valid())
    reads book, book.data.Values
  {
    && (cmd.handler == SearchContactsHandler ==> reply == Message(InputError(old(SearchContactsOutcome(args, book.Records())))))
    && (cmd.handler == BirthdaysHandler ==> reply == Message(InputError(Birthdays(args))))
    && (cmd.handler.Unavailable? ==> reply == Failure(NotDefined(cmd.handler.function_name)))
    && (!WritesAddressBook(cmd.handler) ==>
          book.keys == old(book.keys) && book.data == old(book.data) && forall k :: k in book.data ==> unchanged(book.data[k]))
  }

  /** What an Address Book handler does to the book and replies. */
  twostate predicate AddressBookHandled(cmd: Command, args: seq<string>, book: AddressBook, new reply: Reply)
    requires old(book.Valid())
    reads book, book.data.Values
  {
    AddressBookWritten(cmd, args, book, reply) && AddressBookRead(cmd, args, book, reply)
  }

  /** The Note Book handlers that change the notes. */
  predicate WritesNotes(h: Handler) {
    h in {AddNoteHandler, RemoveNoteHandler, EditNoteHandler, AddTagToNoteHandler, RemoveTagFromNoteHandler}
  }

  /** What a note-changing handler does to the notes and replies: its own outcome through `input_error` and its own effect. */
  twostate predicate NotesWritten(cmd: Command, args: seq<string>, nb: NoteBook, new reply: Reply)
    reads nb, nb.notes
  {
    && (cmd.handler == AddNoteHandler ==> reply == Message(InputError(AddNoteOutcome(args))) && AddNoteEffect(args, nb))
    && (cmd.handler == RemoveNoteHandler ==>
          reply == Message(InputError(old(RemoveNoteOutcome(args, nb)))) && RemoveNoteEffect(args, nb))
    && (cmd.handler == EditNoteHandler ==>
          reply == Message(InputError(old(EditNoteOutcome(args, nb)))) && EditNoteEffect(args, nb))
    && (cmd.handler == AddTagToNoteHandler ==>
          reply == Message(InputError(old(AddTagToNoteOutcome(args, nb)))) && AddTagToNoteEffect(args, nb))
    && (cmd.handler == RemoveTagFromNoteHandler ==>
          reply == Message(InputError(old(RemoveTagFromNoteOutcome(args, nb)))) && RemoveTagFromNoteEffect(args, nb))
  }

  /** What a handler that only reads the notes, or a missing one, replies; the notes stay as they were. */
  twostate predicate NotesRead(cmd: Command, args: seq<string>, nb: NoteBook, new reply: Reply)
    reads nb, nb.notes
  {
    && (cmd.handler == ShowAllNotesHandler ==> reply == Message(InputError(old(ShowAllNotes(args, nb)))))
    && (cmd.handler == SearchNotesHandler ==> reply == Message(InputError(old(SearchNotes(args, nb)))))
    && (cmd.handler == SearchNotesByTagHandler ==> reply == Message(InputError(old(SearchNotesByTag(args, nb)))))
    && (cmd.handler == SortNotesByTagHandler ==> reply == NotesReply(old(SortNotesByTag(args, nb))))
    && (cmd.handler.Unavailable? ==> reply == Failure(NotDefined(cmd.handler.function_name)))
    && (!WritesNotes(cmd.handler) ==> nb.notes == old(nb.notes) && forall j :: 0 <= j < |nb.notes| ==> unchanged(nb.notes[j]))
  }

  /** What a Note Book handler does to the notes and replies. */
  twostate predicate NoteBookHandled(cmd: Command, args: seq<string>, nb: NoteBook, new reply: Reply)
    reads nb, nb.notes
  {
    NotesWritten(cmd, args, nb, reply) && NotesRead(cmd, args, nb, reply)
  }

  /** An Address Book command: `handler(args, addressbook)`, then the save when flagged and the handler returned. */
  method RunAddressBook(cmd: Command, args: seq<string>, book: AddressBook) returns (reply: Reply, saved: bool)
    requires cmd.category == AddressBookCategory && WellFormed(cmd) && book.Valid()
    modifies book, book.data.Values
    ensures book.Valid()
    ensures saved <==> cmd.saveAddressBook && !cmd.handler.Unavailable?
    ensures AddressBookHandled(cmd, args, book, reply)
  {
    if WritesAddressBook(cmd.handler) {
      reply := WriteAddressBook(cmd, args, book);
    } else {
      reply := ReadAddressBook(cmd, args, book);
    }
    saved := cmd.saveAddressBook && !cmd.handler.Unavailable?;
  }

  /** `add_contact` and `delete_contact`, behind `input_error`. */
  method WriteAddressBook(cmd: Command, args: seq<string>, book: AddressBook) returns (reply: Reply)
    requires WritesAddressBook(cmd.handler) && book.Valid()
    modifies book, book.data.Values
    ensures book.Valid()
    ensures AddressBookHandled(cmd, args, book, reply)
  {
    if cmd.handler == AddContactHandler {
      var o := AddContact(args, book);
      reply := Message(InputError(o));
    } else {
      var o := DeleteContact(args, book);
      reply := Message(InputError(o));
    }
  }

  /** `search_contacts`, `birthdays` and the handlers that are not defined, which change nothing. */
  method ReadAddressBook(cmd: Command, args: seq<string>, book: AddressBook) returns (reply: Reply)
    requires cmd.category == AddressBookCategory && WellFormed(cmd) && !WritesAddressBook(cmd.handler) && book.Valid()
    ensures AddressBookHandled(cmd, args, book, reply)
  {
    match cmd.handler {
    case SearchContactsHandler =>
      var o := SearchContacts(args, book);
      reply := Message(InputError(o));
    case BirthdaysHandler =>
      reply := Message(InputError(Birthdays(args)));
    case Unavailable(f) =>
      reply := Failure(NotDefined(f));
    case _ =>
      assert false;
    }
  }

  /** A Note Book command: `handler(args, notebook)`, then the save when flagged and the handler returned. */
  method RunNoteBook(cmd: Command, args: seq<string>, nb: NoteBook) returns (reply: Reply, saved: bool)
    requires cmd.category == NoteBookCategory && WellFormed(cmd)
    modifies nb, nb.notes
    ensures saved <==> cmd.saveNoteBook && !cmd.handler.Unavailable?
    ensures NoteBookHandled(cmd, args, nb, reply)
  {
    if WritesNotes(cmd.handler) {
      reply := WriteNotes(cmd, args, nb);
    } else {
      reply := ReadNotes(cmd, args, nb);
    }
    saved := cmd.saveNoteBook && !cmd.handler.Unavailable?;
  }

  /** The five note-changing handlers, behind `input_error`. */
  method WriteNotes(cmd: Command, args: seq<string>, nb: NoteBook) returns (reply: Reply)
    requires WritesNotes(cmd.handler)
    modifies nb, nb.notes
    ensures NoteBookHandled(cmd, args, nb, reply)
  {
    match cmd.handler {
    case AddNoteHandler =>
      var o := AddNote(args, nb);
      reply := Message(InputError(o));
    case RemoveNoteHandler =>
      var o := RemoveNote(args, nb);
      reply := Message(InputError(o));
    case EditNoteHandler =>
      var o := EditNote(args, nb);
      reply := Message(InputError(o));
    case AddTagToNoteHandler =>
      var o := AddTagToNote(args, nb);
      reply := Message(InputError(o));
    case RemoveTagFromNoteHandler =>
      var o := RemoveTagFromNote(args, nb);
      reply := Message(InputError(o));
    case _ =>
      assert false;
    }
  }

  /** The listing and search handlers and the ones that are not defined, which change nothing. */
  method ReadNotes(cmd: Command, args: seq<string>, nb: NoteBook) returns (reply: Reply)
    requires cmd.category == NoteBookCategory && WellFormed(cmd) && !WritesNotes(cmd.handler)
    ensures NoteBookHandled(cmd, args, nb, reply)
  {
    match cmd.handler {
    case ShowAllNotesHandler =>
      reply := Message(InputError(ShowAllNotes(args, nb)));
    case SearchNotesHandler =>
      reply := Message(InputError(SearchNotes(args, nb)));
    case SearchNotesByTagHandler =>
      reply := Message(InputError(SearchNotesByTag(args, nb)));
    case SortNotesByTagHandler =>
      reply := NotesReply(SortNotesByTag(args, nb));
    case Unavailable(f) =>
      reply := Failure(NotDefined(f));
    case _ =>
      assert false;
    }
  }

  /** The `try` block of `execute_command`: the category decides which book the handler gets. */
  method RunCommand(reg: CommandRegistry, cmd: Command, args: seq<string>, book: AddressBook, nb: NoteBook)
    returns (reply: Reply, savedAddressBook: bool, savedNoteBook: bool)
    requires reg.Valid() && book.Valid() && WellFormed(cmd)
    modifies book, book.data.Values, nb, nb.notes
    ensures book.Valid()
    ensures savedAddressBook <==> SavesAddressBook(Run(cmd))
    ensures savedNoteBook <==> SavesNoteBook(Run(cmd))
    ensures cmd.category !in Categories ==> reply == Message("Unknown command category: " + CategoryName(cmd.category))
    ensures cmd.category in Categories && cmd.handler.Unavailable? ==> reply == Failure(NotDefined(cmd.handler.function_name))
    ensures cmd.category in Categories && cmd.handler == HelpHandler ==> reply == HelpTable(HelpGroups(reg.Entries(), Categories))
    ensures cmd.category == AddressBookCategory ==> AddressBookHandled(cmd, args, book, reply)
    ensures cmd.category == NoteBookCategory ==> NoteBookHandled(cmd, args, nb, reply)
    ensures cmd.category != AddressBookCategory ==>
      book.keys == old(book.keys) && book.data == old(book.data) && forall k :: k in book.data ==> unchanged(book.data[k])
    ensures cmd.category != NoteBookCategory ==>
      nb.notes == old(nb.notes) && forall j :: 0 <= j < |nb.notes| ==> unchanged(nb.notes[j])
  {
    savedAddressBook, savedNoteBook := false, false;
    if cmd.category == GeneralCategory {
      reply := RunGeneral(reg, cmd, args);
    } else if cmd.category == AddressBookCategory {
      reply, savedAddressBook := RunAddressBook(cmd, args, book);
    } else if cmd.category == NoteBookCategory {
      reply, savedNoteBook := RunNoteBook(cmd, args, nb);
    } else {
      reply := Message("Unknown command category: " + CategoryName(cmd.category));
    }
  }

  /**
   * One pass of the main loop after parsing. The suggestion for an unknown
   * word is a parameter; the two saves are reported as flags.
   */
  method ExecuteCommand(reg: CommandRegistry, name: string, args: seq<string>, book: AddressBook, nb: NoteBook, suggestion: string)
    returns (reply: Reply, shouldExit: bool, savedAddressBook: bool, savedNoteBook: bool)
    requires reg.Valid() && book.Valid()
    requires forall k :: k in reg.commands ==> WellFormed(reg.commands[k])
    modifies book, book.data.Values, nb, nb.notes
    ensures book.Valid()
    ensures shouldExit <==> Plan(reg, name).Stop?
    ensures savedAddressBook <==> SavesAddressBook(Plan(reg, name))
    ensures savedNoteBook <==> SavesNoteBook(Plan(reg, name))
    ensures Plan(reg, name).Suggest? ==> reply == Message(suggestion)
    ensures Plan(reg, name).Stop? ==> reply == Message("")
    ensures Plan(reg, name).UnknownCategory? ==>
      reply == Message("Unknown command category: " + CategoryName(Plan(reg, name).category))
    ensures Plan(reg, name).Run? && Plan(reg, name).cmd.handler.Unavailable? ==>
      reply == Failure(NotDefined(Plan(reg, name).cmd.handler.function_name))
    ensures Plan(reg, name).Run? && Plan(reg, name).cmd.handler == HelpHandler ==>
      reply == HelpTable(HelpGroups(reg.Entries(), Categories))
    ensures Plan(reg, name).Run? && Plan(reg, name).cmd.category == AddressBookCategory ==>
      AddressBookHandled(Plan(reg, name).cmd, args, book, reply)
    ensures Plan(reg, name).Run? && Plan(reg, name).cmd.category == NoteBookCategory ==>
      NoteBookHandled(Plan(reg, name).cmd, args, nb, reply)
    ensures !(Plan(reg, name).Run? && Plan(reg, name).cmd.category == AddressBookCategory) ==>
      book.keys == old(book.keys) && book.data == old(book.data)
      && forall k :: k in book.data ==> unchanged(book.data[k])
    ensures !(Plan(reg, name).Run? && Plan(reg, name).cmd.category == NoteBookCategory) ==>
      nb.notes == old(nb.notes) && forall j :: 0 <= j < |nb.notes| ==> unchanged(nb.notes[j])
  {
    var found := reg.GetCommand(name);
    if found.None? {
      return Message(suggestion), false, false, false;
    }
    if name == "exit" || name == "close" {
      return Message(""), true, false, false;
    }
    var cmd := found.value;
    assert Plan(reg, name) == if cmd.category in Categories then Run(cmd) else UnknownCategory(cmd.category);
    reply, savedAddressBook, savedNoteBook := RunCommand(reg, cmd, args, book, nb);
    shouldExit := false;
  }

  // ---------------------------------------------------------------------
  // The registry the program builds
  // ---------------------------------------------------------------------

  /** The registration of the word at position `i` of the table is the entry the dictionary holds for it. */
  lemma EntryFor(i: nat)
    requires i < |Table|
    ensures TableNames[i] in Registered(Table)
    ensures Registered(Table)[TableNames[i]] == Table[i]
  {
    TableNamesDistinct();
    RegisteredDistinct(Table);
    NameAt(i);
  }

  /**
   * With the program's own registry every command word either runs, stops
   * the loop (exactly `exit` and `close`) or gets a suggestion: the
   * unknown-category reply never occurs.
   */
  lemma TablePlan(reg: CommandRegistry, name: string)
    requires reg.commands == Registered(Table)
    ensures !Plan(reg, name).UnknownCategory?
    ensures Plan(reg, name).Stop? <==> name == "exit" || name == "close"
    ensures Plan(reg, name).Suggest? <==> name !in TableNames
  {
    TableNamesInOrder();
    if name in reg.commands {
      TableLookup(name);
      var i :| 0 <= i < |Table| && Table[i].name == name && Registered(Table)[name] == Table[i];
      SaveFlagsFollowCategory(i);
    }
    if name == "exit" {
      EntryFor(1);
    } else if name == "close" {
      EntryFor(2);
    }
  }

  /** The entry a registered word leads to, found by position. */
  lemma SavingEntryAt(reg: CommandRegistry, name: string) returns (i: nat)
    requires reg.commands == Registered(Table) && Plan(reg, name).Run?
    ensures i < |Table| && Plan(reg, name).cmd == Table[i] && name == TableNames[i]
  {
    TableLookup(name);
    i :| 0 <= i < |Table| && Table[i].name == name && Registered(Table)[name] == Table[i];
    NameAt(i);
  }

  /**
   * Only `add-contact` and `delete-contact` save the address book: the
   * other commands flagged to save it have no handler to run first.
   */
  lemma TableAddressBookSaves(reg: CommandRegistry, name: string)
    requires reg.commands == Registered(Table)
    ensures SavesAddressBook(Plan(reg, name)) <==> name == "add-contact" || name == "delete-contact"
  {
    if SavesAddressBook(Plan(reg, name)) {
      AddressBookSaverNamed(reg, name);
    }
    if name == "add-contact" {
      WordAt(3);
      SaverAt(reg, 3);
    } else if name == "delete-contact" {
      WordAt(14);
      SaverAt(reg, 14);
    }
  }

  lemma AddressBookSaverNamed(reg: CommandRegistry, name: string)
    requires reg.commands == Registered(Table) && SavesAddressBook(Plan(reg, name))
    ensures name == "add-contact" || name == "delete-contact"
  {
    var i := SavingEntryAt(reg, name);
    SavingEntries(i);
    assert i == 3 || i == 14;
    WordAt(i);
  }

  /** The literal words at the positions that save a book. */
  lemma WordAt(i: nat)
    requires i in {3, 14, 16, 17, 21, 24, 25}
    ensures i == 3 ==> TableNames[i] == "add-contact"
    ensures i == 14 ==> TableNames[i] == "delete-contact"
    ensures i == 16 ==> TableNames[i] == "add-note"
    ensures i == 17 ==> TableNames[i] == "remove-note"
    ensures i == 21 ==> TableNames[i] == "edit-note"
    ensures i == 24 ==> TableNames[i] == "add-tag-to-note"
    ensures i == 25 ==> TableNames[i] == "remove-tag-from-note"
  {
  }

  lemma NoteBookSaverNamed(reg: CommandRegistry, name: string)
    requires reg.commands == Registered(Table) && SavesNoteBook(Plan(reg, name))
    ensures name in {"add-note", "remove-note", "edit-note", "add-tag-to-note", "remove-tag-from-note"}
  {
    var i := SavingEntryAt(reg, name);
    SavingEntries(i);
    assert i in {16, 17, 21, 24, 25};
    WordAt(i);
  }

  /** The saving entries run and save their own book. */
  lemma SaverAt(reg: CommandRegistry, i: nat)
    requires reg.commands == Registered(Table) && i in {3, 14, 16, 17, 21, 24, 25}
    ensures i in {3, 14} ==> SavesAddressBook(Plan(reg, TableNames[i]))
    ensures i !in {3, 14} ==> SavesNoteBook(Plan(reg, TableNames[i]))
  {
    RunsEntry(reg, i);
    SavingEntries(i);
    SaveFlagsFollowCategory(i);
  }

  /** A word of the table outside the General category runs its own entry. */
  lemma RunsEntry(reg: CommandRegistry, i: nat)
    requires reg.commands == Registered(Table) && 3 <= i < |Table|
    ensures Plan(reg, TableNames[i]) == Run(Table[i])
  {
    EntryFor(i);
    SaveFlagsFollowCategory(i);
    GeneralEntries(i);
    NotExit(i);
  }

  /** Past the first three entries no word is `exit` or `close`. */
  lemma NotExit(i: nat)
    requires 3 <= i < |Table|
    ensures TableNames[i] != "exit" && TableNames[i] != "close"
  {
    DistinctLiteral(1, i);
    DistinctLiteral(2, i);
  }

  /** The note book is saved after exactly the five commands that change notes. */
  lemma TableNoteBookSaves(reg: CommandRegistry, name: string)
    requires reg.commands == Registered(Table)
    ensures SavesNoteBook(Plan(reg, name)) <==>
      name in {"add-note", "remove-note", "edit-note", "add-tag-to-note", "remove-tag-from-note"}
  {
    if SavesNoteBook(Plan(reg, name)) {
      NoteBookSaverNamed(reg, name);
    }
    if name == "add-note" {
      WordAt(16);
      SaverAt(reg, 16);
    } else if name == "remove-note" {
      WordAt(17);
      SaverAt(reg, 17);
    } else if name == "edit-note" {
      WordAt(21);
      SaverAt(reg, 21);
    } else if name == "add-tag-to-note" {
      WordAt(24);
      SaverAt(reg, 24);
    } else if name == "remove-tag-from-note" {
      WordAt(25);
      SaverAt(reg, 25);
    }
  }
}
