# Personal assistant: a verified model of its core

The assistant is a command-line address book and note book. A user types a
line such as `add-contact Ann 0123456789`. The line is split into a command
word and arguments. The command is looked up in a registry, and the registry
entry's category decides whether its handler gets the address book, the note
book or neither. Handlers report problems by raising exceptions, which a
decorator (`input_error`) turns into reply texts. After a successful handler
the entry's save flags decide which book is written back to disk.

This project models that core in Dafny:

- `errors.dfy` (module `Errors`) holds `Option`, the exceptions the code raises
  and catches (`ValueError`, `KeyError`, `IndexError`, any other class by name),
  and `Outcome`: a call either returns a value or raises.
- `text.dfy` (module `Text`) holds the Python string operations the code relies
  on, on ASCII text: `strip`, `split()`, `join`, `lower`, `in` on strings,
  `int()`, `str(n)` and the code-point order of `sorted`. It also holds their
  laws, such as splitting a single-space join, `int(str(n)) == n`, and
  containment as an occurrence at some offset.
- `dates.dfy` (module `Dates`) holds the part of `datetime.date` the birthday
  code uses: `replace(year=…)`, comparison, `+ timedelta(days=n)` with its
  overflow past 9999-12-31, `weekday()`, `strptime("%d.%m.%Y")` and
  `strftime("%d.%m.%Y")`.
- `lists.dfy` and `sorting.dfy` (modules `Lists`, `Sorting`) hold list removal,
  subsequences and a stable sort by string key, which stands for Python's
  `sorted(..., key=...)`.
- `contacts.dfy` (module `Contacts`) models `src/address_book.py`. `Record`
  and `AddressBook` are classes whose fields the methods update in place. The
  address book's dictionary is a map plus the key insertion order.
- `notes.dfy` (module `Notes`) models `src/note_book.py`. `Note` and
  `NoteBook` are classes, and the list of notes is a sequence of references,
  so an edit through `find` changes the note inside the list.
- `commands.dfy` (module `Commands`) models the command handlers of
  `src/commands.py` and `input_error`.
- `registry.dfy` (module `Registry`) models `src/command_registry.py`: the 26
  registrations in order, the registry class, lookup, the sorted name list and
  the help grouping.
- `dispatch.dfy` (module `Dispatch`) models `execute_command` of `src/main.py`.
  Its result is the reply, the exit signal and whether each book is saved.

The model follows the code as written, including where it does not fit the
rest of the repository:

- `search_contacts` reads `record.email`, but `Record` has no such attribute.
  Every record that neither the name nor a phone matches therefore raises
  `AttributeError`. The model returns that exception, and `input_error`
  renders it as "Unexpected error: …".
- `birthdays` calls `get_upcoming_birthdays(args)`, which accepts no argument.
  Once its argument checks pass it always raises `TypeError`.
- `src/command_registry.py:4-11` imports handlers that `src/commands.py` does
  not define (`edit_phone`, `show_contact`, `show_note` and others). Python
  would stop at that import with `ImportError`. The model keeps the registry
  usable and marks each such entry `Unavailable(function_name)`. Running one
  gives "Error executing command: name '…' is not defined", and no save
  follows.
- `add_birthday` and `show_birthday` exist in `src/commands.py` but are not
  registered, so no command line reaches them.

## Model

| member | source | states |
|---|---|---|
| Commands.ParseInput | src/commands.py:34-50 | A blank line gives ("", []); otherwise the command is the first whitespace-separated token, lower-cased, and the arguments are the remaining tokens in order. |
| Commands.ParseInputOfJoined | src/commands.py:34-50 | A command word and arguments without whitespace, joined by single spaces, parse back to the lower-cased word and exactly those arguments. |
| Commands.InputError | src/commands.py:5-32 | A normal result passes through unchanged; ValueError gives "Error: " plus its text; KeyError gives "Item not found."; IndexError gives "Not enough arguments provided."; any other exception gives "Unexpected error: " plus its text. |
| Commands.KeyErrorTextDropped | src/commands.py:25-26 | Every KeyError, whatever its message, is reported as the same "Item not found.". |
| Commands.AddContact | src/commands.py:53-76 | Fewer than two arguments raise the usage ValueError and change nothing. Otherwise a new name gets a fresh record with no phone and no birthday, appended at the end of the key order, with "Contact added."; an existing name keeps its record and its birthday, with "Contact updated.". The phone is then appended to that record's phones, or its ValueError is raised after the record was created. No other record changes. |
| Commands.ContactFor | src/commands.py:67-73 | The record under `name` is returned if present; otherwise a fresh record with no phone and no birthday is added under `name` at the end of the key order. |
| Commands.SearchContacts | src/commands.py:123-163 | Returns exactly `SearchContactsOutcome` of the arguments and the book's records in insertion order: the missing-query ValueError, the AttributeError, or the found-contacts text. |
| Commands.RecordStrings | src/commands.py:160 | Each line is the corresponding record's own text, in the order found. |
| Commands.ScanRecords | src/commands.py:137-157 | The record loop collects the records matched by name or phone, in book order, and stops with AttributeError at the first record that neither matches. |
| Commands.PhoneMatches | src/commands.py:147-150 | True exactly when some phone of the record contains the query. |
| Commands.SearchScanAllOrError | src/commands.py:137-157 | The scan succeeds exactly when every record matches by name or phone, and then it lists all the records; otherwise it raises the AttributeError for `email`. |
| Commands.SearchContactsAllOrError | src/commands.py:123-163 | With a query, a search either lists every contact of the book or fails with the AttributeError, and it lists them exactly when each contact matches by name or phone. |
| Commands.SearchScanStops | src/commands.py:137-157 | Once the scan has raised, the records after that point do not change the outcome. |
| Commands.AddBirthdayToContact | src/commands.py:177-186 | Fewer than two arguments raise the usage ValueError; more than two raise the unpacking ValueError; an unknown name raises KeyError; otherwise the record's birthday is set (or the date's ValueError is raised) and no other record and no key changes. |
| Commands.ShowBirthday | src/commands.py:246-257 | No argument raises the usage ValueError; an unknown name raises KeyError; a known name always gives a reply. |
| Commands.ShowBirthdayAfterAdd | src/commands.py:246-257 | After a record's birthday is set from a text, show-birthday replies "<name>'s birthday: <text>". |
| Commands.Birthdays | src/commands.py:271-291 | No argument, a non-integer and a negative number each raise their ValueError; any valid count raises the TypeError from calling `get_upcoming_birthdays` with an argument. |
| Commands.BirthdaysNeverSucceeds | src/commands.py:271-291 | As written, `birthdays` never returns normally, whatever its arguments. |
| Commands.BirthdaysOfCount | src/commands.py:274-291 | For the decimal rendering of any natural number within `int()`'s 4300-digit limit, `birthdays` raises the TypeError of the call with an argument. |
| Commands.BirthdaysOverLimit | src/commands.py:274-279 | A run of more than 4300 digits is rejected by `int()`, so `birthdays` raises the "valid integer" ValueError. |
| Commands.DeleteContact | src/commands.py:305-313 | No argument raises the usage ValueError and changes nothing; otherwise the name is removed from the map and from the key order, with the deletion message when it was present and KeyError when it was not. |
| Commands.StripAll | src/commands.py:327-332 | Each tag is the corresponding argument with surrounding whitespace stripped, in order. |
| Commands.AddNote | src/commands.py:327-332 | Fewer than two arguments raise ValueError and leave the notes alone; otherwise one fresh note is appended with the first argument as title, all remaining arguments joined by spaces as content, and the stripped arguments from the third on as tags. |
| Commands.AddNoteTagsInContent | src/commands.py:327-332 | Every word used as a tag of a new note also appears as a word of its content. |
| Commands.RemoveNote | src/commands.py:346-349 | No argument raises ValueError; otherwise the first note with that title is removed, the others keeping their order, or the not-found reply is given and nothing changes. |
| Commands.ShowAllNotes | src/commands.py:352-363 | Arguments give the no-arguments reply; an empty note book gives "No notes available."; otherwise the reply is the notes' own texts, in list order, one per line. |
| Commands.NoteLines | src/commands.py:377-390 | One numbered line per note, in list order. |
| Commands.SearchNotes | src/commands.py:377-390 | No argument raises ValueError; otherwise the reply lists exactly the notes whose title or content contains the joined query, ignoring case, in list order. |
| Commands.EditArguments | src/commands.py:404-412 | The title is the first argument; a new title, new content and new tags are given exactly when there are at least two, three or four arguments. Content is the arguments from the third on joined by spaces; tags are the arguments from the fourth on. |
| Commands.EditTagsInContent | src/commands.py:404-412 | When new tags are given, each of them is also a word of the new content. |
| Commands.EditNote | src/commands.py:404-412 | No argument raises ValueError; an unknown title gives the not-found reply and no note changes; otherwise the first note with that title gets the given fields, all other notes are unchanged, and the list itself stays the same. |
| Commands.SearchNotesByTag | src/commands.py:426-439 | No argument raises ValueError; otherwise the reply lists exactly the notes carrying that tag, in list order. |
| Commands.SortNotesByTag | src/commands.py:453-455 | Arguments raise ValueError; otherwise the result is a reordering of the same notes. |
| Commands.AddTagToNote | src/commands.py:469-477 | Fewer than two arguments raise ValueError; an unknown title raises KeyError and no note changes; otherwise only that note's tags change, gaining the tag once. |
| Commands.RemoveTagFromNote | src/commands.py:491-499 | Fewer than two arguments raise ValueError; an unknown title raises KeyError; otherwise only that note's tags change, losing the first copy of the tag, or the not-found reply is given. |
| Contacts.MakePhone | src/address_book.py:21-31 | A phone is accepted exactly when it is ten decimal digits, and it is then kept as given; anything else raises the ten-digit ValueError. |
| Contacts.MakeBirthday | src/address_book.py:34-46 | A birthday is accepted exactly when the text parses as DD.MM.YYYY to a valid date, and it keeps both the text and the date; otherwise the format ValueError is raised. |
| Contacts.BirthdayOfFormatted | src/address_book.py:37-43 | Any valid date written as DD.MM.YYYY is accepted and parses back to itself. |
| Contacts.Record.AddPhone | src/address_book.py:57-60 | A valid phone is appended; an invalid one raises ValueError and leaves the phones as they were. |
| Contacts.Record.FindPhone | src/address_book.py:80-85 | Finds the first position holding the phone, or reports that no position holds it. |
| Contacts.Record.RemovePhone | src/address_book.py:62-68 | The first copy of the phone is removed, the rest keeping their order; a missing phone raises ValueError and nothing changes. |
| Contacts.Record.EditPhone | src/address_book.py:70-78 | A missing old phone raises ValueError; an invalid new phone raises ValueError; otherwise the first copy of the old phone is replaced in place. Nothing changes on error. |
| Contacts.Record.AddBirthday | src/address_book.py:87-89 | The birthday is set exactly when the text parses; otherwise ValueError is raised and the old birthday stays. |
| Contacts.AddressBook.Find | src/address_book.py:104-106 | Returns the record stored under the name, or None when there is none. |
| Contacts.AddressBook.AddRecord | src/address_book.py:100-102 | The record is stored under its name, which goes to the end of the key order only if it was new; every other name finds what it found before. |
| Contacts.AddressBook.Delete | src/address_book.py:108-113 | The name is removed from the map and the key order; a missing name raises KeyError. Every other name finds what it found before. |
| Contacts.AddressBook.GetUpcomingBirthdays | src/address_book.py:115-151 | Returns `Upcoming` (the scan of the records in insertion order, then the weekend shift) for the book's records, with today as a parameter. |
| Contacts.ScanBirthdays | src/address_book.py:122-151 | The loop over the records computes the same outcome as `Upcoming`, including the exceptions `replace` and `timedelta` raise. |
| Contacts.ReportBirthday | src/address_book.py:127-149 | One record's contribution equals `Report` for that record. |
| Contacts.OccurrenceFacts | src/address_book.py:130-135 | The next birthday raises exactly for 29 February outside a leap year, or when this year's date has passed and either this is year 9999 or the birthday is 29 February (next year then not being a leap year). Otherwise it has the birthday's day and month, is not before today, and falls this year exactly when this year's has not passed. |
| Contacts.CongratulateFacts | src/address_book.py:139-144 | The weekend shift never fails, lands on a weekday, and moves Saturday by two days, Sunday by one day and other days not at all. |
| Contacts.ReportRaisesIff | src/address_book.py:127-149 | A record's report raises exactly when it has a birthday whose next occurrence raises. |
| Contacts.ReportWindow | src/address_book.py:138 | A record is reported exactly when its next birthday is at most seven days after today. |
| Contacts.ReportGreeting | src/address_book.py:138-149 | A reported greeting carries the record's name and the shifted date as DD.MM.YYYY; the date is on or after the birthday, at most two days later, and on a weekday. |
| Contacts.CongratulationCanPassWindow | src/address_book.py:138-144 | The window is tested before the shift, so a greeting can fall after next week (a Saturday birthday on the last day gives the following Monday). |
| Contacts.CollectOkIff | src/address_book.py:126-151 | The scan succeeds exactly when no record's report raises. |
| Contacts.CollectInBookOrder | src/address_book.py:126-151 | The greeted names appear in the book's insertion order, each record at most once. |
| Contacts.UpcomingOverflow | src/address_book.py:123-124 | From 9999-12-25 on, computing next week raises OverflowError; before that it succeeds. |
| Contacts.LeapDayBirthdayRaises | src/address_book.py:131 | A 29 February birthday makes the whole call raise in a year that is not a leap year. |
| Dates.ParseFormat | src/address_book.py:40 | Writing a valid date as DD.MM.YYYY and parsing it back gives the same date. |
| Dates.ParseNeedsTwoDots | src/address_book.py:40 | A text without two dots never parses as a date. |
| Dates.BeforeIffOrdinal | src/address_book.py:134-138 | Python's field-by-field date comparison agrees with comparing day numbers. |
| Dates.AddDaysOrdinal | src/address_book.py:124 | Adding days moves the day number by exactly that amount, or raises past 9999-12-31. |
| Dates.WeekdayAdvance | src/address_book.py:141-144 | Weekdays advance with the day number, modulo seven. |
| Notes.WithTag | src/note_book.py:20-24 | After adding, the tag is present and no other tag is added; a list without repeats stays without repeats. |
| Notes.WithTagIdempotent | src/note_book.py:20-24 | Adding a tag twice has the same effect as adding it once. |
| Notes.Note.AddTag | src/note_book.py:20-24 | The tags gain the tag only if absent; title and content are unchanged; the reply names the tag and the note. |
| Notes.Note.RemoveTag | src/note_book.py:26-31 | The first copy of the tag is removed, the rest keeping their order; the reply says whether it was found. |
| Notes.NoteBook.Add | src/note_book.py:43-46 | The note is appended, whether or not its title is already used. |
| Notes.NoteBook.Find | src/note_book.py:56-61 | Returns the first note with exactly that title, or None when no note has it. |
| Notes.NoteBook.Remove | src/note_book.py:48-54 | The first note with that title is removed, the others keeping their order; otherwise nothing changes and the reply says it was not found. |
| Notes.NoteBook.Search | src/note_book.py:67-72 | Exactly the notes whose title or content contains the query, ignoring case, in list order. |
| Notes.NoteBook.Edit | src/note_book.py:74-87 | Only the first note with that title changes, and only in the fields given; with no such note nothing changes. |
| Notes.NoteBook.SearchByTag | src/note_book.py:89-91 | Exactly the notes whose tag list contains the tag, in list order. |
| Notes.MatchingCounts | src/note_book.py:67-72 | The search keeps every copy of a matching note and none of any other, so with the order it fixes the result even when a note appears twice. |
| Notes.TaggedCounts | src/note_book.py:89-91 | The tag search keeps every copy of a tagged note and none of any other. |
| Notes.NoteStrings | src/note_book.py:63-65 | Each line is the corresponding note's own text, in list order. |
| Notes.SortByTagFacts | src/note_book.py:93-95 | Sorting by tags returns the same notes, ordered by the comma-joined sorted tags, with notes of equal key in their list order. |
| Registry.CommandRegistry.constructor | src/command_registry.py:48-51 | A new registry holds exactly the 26 registrations, under their names, in registration order. |
| Registry.CommandRegistry.RegisterAll | src/command_registry.py:53-300 | Registering a list of commands gives the map from each name to its last registration, keyed in first-registration order. |
| Registry.CommandRegistry.Register | src/command_registry.py:302-325 | The command is stored under its name, replacing any earlier one; a new name goes to the end of the order. |
| Registry.CommandRegistry.GetCommand | src/command_registry.py:327-337 | Returns the command registered under the name, whose own name is that name, or None. |
| Registry.CommandRegistry.IsValidCommand | src/command_registry.py:377-387 | True exactly when the lookup finds a command. |
| Registry.CommandRegistry.GetAllCommandNames | src/command_registry.py:339-346 | The registered names, each once, sorted, and no other names. |
| Registry.CommandRegistry.GetHelpGroups | src/command_registry.py:361-373 | The help screen's groups for General, Address Book and Note Book, computed over the commands in registration order. |
| Registry.GroupByCategory | src/command_registry.py:361-373 | The grouping loop over the categories builds exactly the help groups. |
| Registry.RegisteredDistinct | src/command_registry.py:302-325 | When no name is registered twice, the key order is the registration order and each name maps to its own registration. |
| Registry.TableNamesDistinct | src/command_registry.py:63-300 | No command name is registered twice. |
| Registry.HelpGroupsShape | src/command_registry.py:361-373 | Each group is a listed category, is non-empty, holds the same commands as that category, and is sorted by name. |
| Registry.HelpGroupsCover | src/command_registry.py:361-373 | Every command whose category is listed appears under a group of its category. |
| Registry.HelpGroupsInOrder | src/command_registry.py:361-373 | For a list of distinct categories, the groups follow the list's order, so each category has at most one group. |
| Registry.HelpScreenOrder | src/command_registry.py:361-373 | The help screen's groups come in the order General, Address Book, Note Book, each at most once. |
| Registry.ReadOnlyEntries | src/command_registry.py:63-300 | Every General entry and every entry whose name shows or searches (`show-…`, `search-…`, `birthdays`, `sort-notes-by-tag`) carries neither save flag. |
| Registry.SaveFlagsFollowCategory | src/command_registry.py:63-300 | Only Address Book commands save the address book, only Note Book commands save the notes, and every category is one of the three. |
| Registry.GeneralCommands | src/command_registry.py:66-88 | `help` is the one help entry; `exit` and `close` share the exit handler. |
| Registry.GeneralEntries | src/command_registry.py:66-88 | The General category holds exactly the first three registrations. |
| Registry.TableWellFormed | src/command_registry.py:63-300 | Every registered handler is one meant for its command's category. |
| Registry.BirthdayHandlersUnregistered | src/command_registry.py:63-300 | Neither `add-birthday` nor `show-birthday` is a registered command. |
| Registry.SavingEntries | src/command_registry.py:63-300 | The entries that both save and have a handler are `add-contact` and `delete-contact` for the address book, and the five note-editing commands for the notes. |
| Dispatch.Plan | src/main.py:27-56 | An unknown name leads to the suggestion, `exit`/`close` to the exit signal, a command of a listed category to running it, and any other category to the unknown-category reply. |
| Dispatch.RunGeneral | src/main.py:40-42 | `help` replies with the help groups; the exit handler replies "exit"; a missing handler fails with its NameError. |
| Dispatch.RunAddressBook | src/main.py:43-48 | The handler runs on the address book; the book is saved exactly when the entry's flag is set and the handler returned. `add-contact` and `delete-contact` reply with their handler's outcome through `input_error` and leave the book in that handler's new state; search and birthdays reply with their outcome and change nothing. |
| Dispatch.WriteAddressBook | src/main.py:43-48 | For `add-contact` and `delete-contact`, the reply and the new book are those of the handler. |
| Dispatch.ReadAddressBook | src/main.py:43-48 | For the other address-book entries, the reply is the handler's outcome or the missing handler's failure, and the book is untouched. |
| Dispatch.RunNoteBook | src/main.py:49-54 | The handler runs on the note book; the notes are saved exactly when the entry's flag is set and the handler returned. Each of the five note-editing commands replies with its handler's outcome through `input_error` and leaves the notes in that handler's new state; the read-only commands reply with their outcome and change nothing. |
| Dispatch.WriteNotes | src/main.py:49-54 | For the five note-editing commands, the reply and the new notes are those of the handler. |
| Dispatch.ReadNotes | src/main.py:49-54 | For the other note-book entries, the reply is the handler's outcome or the missing handler's failure, and the notes are untouched. |
| Dispatch.RunCommand | src/main.py:38-62 | Dispatches on the category: an Address Book or Note Book command gets exactly the reply and new state its handler gives, as stated for those two. Only an Address Book command can change or save the address book, and only a Note Book command the notes. An unlisted category gives the unknown-category reply. |
| Dispatch.ExecuteCommand | src/main.py:8-62 | The reply, exit signal and saves follow the plan for the name: the suggestion for an unknown name, an empty reply and exit for `exit`/`close`, and otherwise the category dispatch, with each state-changing handler's reply and new state. Nothing else changes. |
| Dispatch.TablePlan | src/main.py:27-36 | With the registered table, no command falls in an unknown category; exactly `exit` and `close` stop the loop; exactly the unregistered names get a suggestion. |
| Dispatch.TableAddressBookSaves | src/main.py:43-48 | With the registered table, a command saves the address book exactly when it is `add-contact` or `delete-contact`. |
| Dispatch.TableNoteBookSaves | src/main.py:49-54 | With the registered table, a command saves the notes exactly when it is `add-note`, `remove-note`, `edit-note`, `add-tag-to-note` or `remove-tag-from-note`. |
| Text.SplitJoin | src/commands.py:48 | Non-empty tokens without whitespace, joined by single spaces, split back into the same tokens. |
| Text.SplitEmptyIffBlank | src/commands.py:45-48 | `split()` finds no token exactly when the text strips to nothing, i.e. is all whitespace. |
| Text.ContainsIffOccurrence | src/commands.py:142-150 | Python's `needle in hay` holds exactly when the needle occurs at some offset. |
| Text.ParseIntOfNatToString | src/commands.py:274-277 | `int()` reads the decimal rendering of a natural number of at most 4300 digits, and of its negation, back as that number. |
| Text.ParseIntOverLimit | src/commands.py:274-277 | `int()` rejects a run of more than 4300 digits, with or without a minus sign. |
| Sorting.SortByKeySorted | src/note_book.py:93-95 | The sort puts keys in order and keeps exactly the input's elements. |
| Sorting.SortByKeyStable | src/note_book.py:93-95 | Elements with equal keys keep their relative order. |
| Lists.RemoveFirstDistinct | src/address_book.py:108-113 | Removing an element from a list without repeats leaves a list without repeats that holds exactly the other elements. |

## Left out

- The prompt loop in `main()` (`src/main.py:65-112`), reading input, printing and the greeting are not modelled. `execute_command` takes the parsed command and returns the reply.
- Saving (`src/data_persistence.py`) is not part of this model. `execute_command` reports which books would be saved, as out-parameters.
- The suggestion for an unknown command comes from `src/command_suggester.py`, which is not part of this model. It is a parameter of `ExecuteCommand`.
- The help table's layout (`src/ui_formatter.py`) is not part of this model. The help reply is the grouped, sorted commands themselves.
- `date.today()` is a parameter (`today`), not a clock reading.
- Text is ASCII. Python's Unicode digit tests, case folding and whitespace classes beyond ASCII are not modelled. `int()` accepts an ASCII sign, digits and single underscores between digits, and rejects more than 4300 digits, CPython's default `sys.get_int_max_str_digits()` since 3.11 (earlier versions had no limit).
- Phone objects are modelled by their text. Records hold phone texts, not `Phone` objects.
- `edit_fields`, `show_all`, `add_address` and `add_email` in `src/commands.py` are outside the modelled core. Neither `Record` nor the registry can reach them.
- The registry's import of handlers that `src/commands.py` does not define would fail at load time. The model instead keeps those entries and makes invoking them fail, as described above.
- Commands.AddBirthdayToContact: the exact wording of the "too many values to unpack" message depends on the Python version; the model uses "too many values to unpack (expected 2)".
- Contacts.Record.ToString, Notes.Note.ToString and the listing texts are modelled as text but no property is stated about their layout.
- Commands.SortNotesByTag: the contract states only that the notes are a reordering; the order itself is stated by Notes.SortByTagFacts.
- Commands.ShowBirthday: for a known name the contract states only that a reply is given; its text is stated by Commands.ShowBirthdayAfterAdd for a birthday that was set.
