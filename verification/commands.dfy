/**
 * The command handlers: input parsing, the `input_error` decorator that
 * turns exceptions into reply text, and one handler per command that checks
 * its arguments and then drives the address book or the note book.
 *
 * Each handler returns what the undecorated Python function returns or
 * raises; `InputError` is the decorator applied to that outcome.
 */
module Commands {
  import opened Errors
  import opened Text
  import opened Lists
  import opened Dates
  import opened Contacts
  import opened Notes

  // ---------------------------------------------------------------------
  // Parsing and the error decorator
  // ---------------------------------------------------------------------

  /** `parse_input`: the lowercased first token and the remaining tokens verbatim. */
  function ParseInput(line: string): (r: (string, seq<string>))
    ensures Split(line) == [] ==> r == ("", [])
    ensures Split(line) != [] ==> r == (Lower(Split(line)[0]), Split(line)[1..])
  {
    SplitEmptyIffBlank(line);
    if Strip(line) == [] then ("", [])
    else
      var ws := Split(line);
      TokenIsStripped(ws[0]);
      (Lower(Strip(ws[0])), ws[1..])
  }

  /** Typing a command word and its arguments separated by spaces parses back to them. */
  lemma ParseInputOfJoined(cmd: string, args: seq<string>)
    requires cmd != [] && NoSpace(cmd)
    requires forall i :: 0 <= i < |args| ==> args[i] != [] && NoSpace(args[i])
    ensures ParseInput(Join(" ", [cmd] + args)) == (Lower(cmd), args)
  {
    var ws := [cmd] + args;
    SplitJoin(ws);
    assert ws[1..] == args;
  }

  /** The reply `input_error` gives for each exception class. */
  function ErrorMessage(e: Exception): string {
    match e
    case ValueError(m) => "Error: " + m
    case KeyError(_) => "Item not found."
    case IndexError(_) => "Not enough arguments provided."
    case OtherError(_, m) => "Unexpected error: " + m
  }

  /** `input_error`: a normal return passes through; every exception becomes a reply. */
  function InputError(o: Outcome<string>): (r: string)
    ensures o.Ok? ==> r == o.value
    ensures o.Raised? && o.exc.ValueError? ==> r == "Error: " + o.exc.msg
    ensures o.Raised? && o.exc.KeyError? ==> r == "Item not found."
    ensures o.Raised? && o.exc.IndexError? ==> r == "Not enough arguments provided."
    ensures o.Raised? && o.exc.OtherError? ==> r == "Unexpected error: " + o.exc.msg
  {
    match o
    case Ok(s) => s
    case Raised(e) => ErrorMessage(e)
  }

  /** The KeyError text never reaches the user: any two KeyErrors read the same. */
  lemma KeyErrorTextDropped(m1: string, m2: string)
    ensures InputError(Raised(KeyError(m1))) == InputError(Raised(KeyError(m2))) == "Item not found."
  {
  }

  // ---------------------------------------------------------------------
  // Address book handlers
  // ---------------------------------------------------------------------

  const AddContactUsage := "Please provide both name and phone number. Usage: add-contact <name> <phone>"

  /** What `add_contact` returns or raises, decided by the book before the call. */
  function AddContactOutcome(args: seq<string>, book: AddressBook): Outcome<string>
    reads book
  {
    if |args| < 2 then Raised(ValueError(AddContactUsage))
    else if args[1] != "" && !IsPhone(args[1]) then Raised(ValueError(PhoneError))
    else Ok(if args[0] in book.data then "Contact updated." else "Contact added.")
  }

  /**
   * The address book after `add_contact`: with two arguments the name is
   * filed (a fresh record without phones or birthday when it was unknown),
   * and a valid phone is appended to its record; nothing else changes.
   */
  twostate predicate AddContactEffect(args: seq<string>, book: AddressBook)
    reads book, book.data.Values
  {
    && (|args| < 2 ==> book.keys == old(book.keys) && book.data == old(book.data))
    && (|args| >= 2 ==>
      && args[0] in book.data
      && book.keys == (if args[0] in old(book.data) then old(book.keys) else old(book.keys) + [args[0]])
      && book.data == old(book.data)[args[0] := book.data[args[0]]])
    && (|args| >= 2 && args[0] in old(book.data) ==>
      && book.data[args[0]] == old(book.data)[args[0]]
      && book.data[args[0]].birthday == old(book.data[args[0]].birthday)
      && book.data[args[0]].phones == old(book.data[args[0]].phones) + (if IsPhone(args[1]) then [args[1]] else []))
    && (|args| >= 2 && args[0] !in old(book.data) ==>
      && fresh(book.data[args[0]])
      && book.data[args[0]].birthday.None?
      && book.data[args[0]].phones == (if IsPhone(args[1]) then [args[1]] else []))
    && forall k :: k in book.data && (|args| < 2 || k != args[0]) ==> unchanged(book.data[k])
  }

  /**
   * `add_contact`: an unknown name gets a new record before the phone is
   * checked, so a bad phone still leaves a contact without phones behind.
   */
  method AddContact(args: seq<string>, book: AddressBook) returns (r: Outcome<string>)
    requires book.Valid()
    modifies book, book.data.Values
    ensures book.Valid()
    ensures r == old(AddContactOutcome(args, book))
    ensures AddContactEffect(args, book)
  {
    if |args| < 2 {
      return Raised(ValueError(AddContactUsage));
    }
    var name, phone := args[0], args[1];
    var record, existed := ContactFor(name, book);
    var message := if existed then "Contact updated." else "Contact added.";
    if phone != "" {
      var added := record.AddPhone(phone);
      if added.Raised? {
        return Raised(added.exc);
      }
    }
    return Ok(message);
  }

  /** The lookup at the head of `add_contact`: the contact under `name`, created empty and stored when missing. */
  method ContactFor(name: string, book: AddressBook) returns (record: Record, existed: bool)
    requires book.Valid()
    modifies book
    ensures book.Valid()
    ensures existed <==> name in old(book.data)
    ensures name in book.data && record == book.data[name]
    ensures book.data == old(book.data)[name := record]
    ensures book.keys == if existed then old(book.keys) else old(book.keys) + [name]
    ensures existed ==> record == old(book.data)[name]
    ensures !existed ==> fresh(record) && record.phones == [] && record.birthday.None?
  {
    var found := book.Find(name);
    if found.Some? {
      return found.value, true;
    }
    record := new Record(name);
    book.AddRecord(record);
    existed := false;
  }

  /** What `search_contacts` tests before it falls through to the e-mail field. */
  predicate NameOrPhoneMatches(rec: Record, query: string)
    reads rec
  {
    Contains(Lower(rec.name), query)
    || exists i :: 0 <= i < |rec.phones| && Contains(rec.phones[i], query)
  }

  const NoEmailError := OtherError("AttributeError", "'Record' object has no attribute 'email'")

  /**
   * The loop of `search_contacts` over the records in book order: a record
   * matched by name or phone is collected; any other record reaches
   * `record.email`, which `Record` does not have.
   */
  function SearchScan(rs: seq<Record>, query: string): (r: Outcome<seq<Record>>)
    reads rs
    ensures r.Ok? ==> forall i :: 0 <= i < |r.value| ==> r.value[i] in rs
  {
    if rs == [] then Ok([])
    else
      match SearchScan(rs[..|rs| - 1], query)
      case Raised(e) => Raised(e)
      case Ok(found) =>
        if NameOrPhoneMatches(rs[|rs| - 1], query) then Ok(found + [rs[|rs| - 1]])
        else Raised(NoEmailError)
  }

  /** `[str(record) for record in found]`: one text per record, in order. */
  function RecordStrings(rs: seq<Record>): (r: seq<string>)
    reads rs
    ensures |r| == |rs|
    ensures forall i :: 0 <= i < |rs| ==> r[i] == rs[i].ToString()
  {
    if rs == [] then [] else [rs[0].ToString()] + RecordStrings(rs[1..])
  }

  /** The text `search_contacts` builds from the records it found. */
  function ContactsFound(found: seq<Record>, text: string): string
    reads found
  {
    if found == [] then "No contacts found matching '" + text + "'."
    else "Found " + NatToString(|found|) + " contact(s):\n" + Join("\n", RecordStrings(found))
  }

  /**
   * As written, the scan either raises on the first record that neither
   * name nor phone matches, or has collected every record.
   */
  lemma {:induction false} SearchScanAllOrError(rs: seq<Record>, query: string)
    ensures SearchScan(rs, query).Ok? <==> forall i :: 0 <= i < |rs| ==> NameOrPhoneMatches(rs[i], query)
    ensures SearchScan(rs, query).Ok? ==> SearchScan(rs, query).value == rs
    ensures SearchScan(rs, query).Raised? ==> SearchScan(rs, query).exc == NoEmailError
    decreases |rs|
  {
    if rs != [] {
      var init, last := rs[..|rs| - 1], rs[|rs| - 1];
      SearchScanAllOrError(init, query);
      assert init + [last] == rs;
      if SearchScan(init, query).Raised? {
        var i :| 0 <= i < |init| && !NameOrPhoneMatches(init[i], query);
        assert rs[i] == init[i];
      } else if NameOrPhoneMatches(last, query) {
        forall i | 0 <= i < |rs|
          ensures NameOrPhoneMatches(rs[i], query)
        {
          if i < |init| {
            assert rs[i] == init[i];
          }
        }
      }
    }
  }

  /** What `search_contacts` returns or raises for the records `rs` of the book, in book order. */
  function SearchContactsOutcome(args: seq<string>, rs: seq<Record>): (r: Outcome<string>)
    reads rs
    ensures |args| == 0 ==> r == Raised(ValueError("Please provide a search query."))
  {
    if |args| == 0 then Raised(ValueError("Please provide a search query."))
    else
      var scan := SearchScan(rs, Lower(Join(" ", args)));
      if scan.Raised? then Raised(scan.exc) else Ok(ContactsFound(scan.value, Join(" ", args)))
  }

  /**
   * As written, a search either lists every contact of the book or fails
   * with the AttributeError; it lists them exactly when each one matches by
   * name or phone.
   */
  lemma SearchContactsAllOrError(args: seq<string>, rs: seq<Record>)
    requires |args| > 0
    ensures var q := Lower(Join(" ", args));
      SearchContactsOutcome(args, rs).Ok? <==> forall i :: 0 <= i < |rs| ==> NameOrPhoneMatches(rs[i], q)
    ensures SearchContactsOutcome(args, rs).Ok? ==> SearchContactsOutcome(args, rs).value == ContactsFound(rs, Join(" ", args))
    ensures SearchContactsOutcome(args, rs).Raised? ==> SearchContactsOutcome(args, rs).exc == NoEmailError
  {
    SearchScanAllOrError(rs, Lower(Join(" ", args)));
  }

  /** `search_contacts`: scans the records in book order. */
  method SearchContacts(args: seq<string>, book: AddressBook) returns (r: Outcome<string>)
    requires book.Valid()
    ensures r == SearchContactsOutcome(args, book.Records())
  {
    if |args| < 1 {
      return Raised(ValueError("Please provide a search query."));
    }
    var query := Lower(Join(" ", args));
    var rs := book.Records();
    var scan := ScanRecords(rs, query);
    if scan.Raised? {
      return Raised(scan.exc);
    }
    return Ok(ContactsFound(scan.value, Join(" ", args)));
  }

  /** The `for record in self.address_book.data.values()` loop of `search_contacts`. */
  method ScanRecords(rs: seq<Record>, query: string) returns (r: Outcome<seq<Record>>)
    ensures r == SearchScan(rs, query)
  {
    var results: seq<Record> := [];
    var i := 0;
    while i < |rs|
      invariant 0 <= i <= |rs|
      invariant SearchScan(rs[..i], query) == Ok(results)
    {
      var rec := rs[i];
      SearchScanStep(rs, i, query);
      var hit := Contains(Lower(rec.name), query);
      if !hit {
        hit := PhoneMatches(rec.phones, query);
      }
      if !hit {
        SearchScanStops(rs, i + 1, query);
        return Raised(NoEmailError);
      }
      results := results + [rec];
      i := i + 1;
    }
    assert rs[..|rs|] == rs;
    return Ok(results);
  }

  lemma SearchScanStep(rs: seq<Record>, i: nat, query: string)
    requires i < |rs|
    ensures SearchScan(rs[..i + 1], query) ==
      if SearchScan(rs[..i], query).Raised? then SearchScan(rs[..i], query)
      else if NameOrPhoneMatches(rs[i], query) then Ok(SearchScan(rs[..i], query).value + [rs[i]])
      else Raised(NoEmailError)
  {
    assert rs[..i + 1][..i] == rs[..i];
  }

  /** The inner `for phone in record.phones` loop: whether some phone contains the query. */
  method PhoneMatches(phones: seq<string>, query: string) returns (hit: bool)
    ensures hit <==> exists k :: 0 <= k < |phones| && Contains(phones[k], query)
  {
    for j := 0 to |phones|
      invariant forall k :: 0 <= k < j ==> !Contains(phones[k], query)
    {
      if Contains(phones[j], query) {
        return true;
      }
    }
    return false;
  }

  lemma {:induction false} SearchScanStops(rs: seq<Record>, n: nat, query: string)
    requires n <= |rs| && SearchScan(rs[..n], query).Raised?
    ensures SearchScan(rs, query) == SearchScan(rs[..n], query)
    decreases |rs| - n
  {
    if n < |rs| {
      assert rs[..n + 1][..n] == rs[..n];
      SearchScanStops(rs, n + 1, query);
    } else {
      assert rs[..n] == rs;
    }
  }

  const AddBirthdayUsage := "Please provide both name and birthday. Usage: add-birthday <name> <DD.MM.YYYY>"

  /** `add_birthday`: exactly two arguments, a known name and a valid date. */
  method AddBirthdayToContact(args: seq<string>, book: AddressBook) returns (r: Outcome<string>)
    requires book.Valid()
    modifies book.data.Values
    ensures book.Valid()
    ensures book.keys == old(book.keys) && book.data == old(book.data)
    ensures |args| < 2 ==> r == Raised(ValueError(AddBirthdayUsage))
    ensures |args| > 2 ==> r == Raised(ValueError("too many values to unpack (expected 2)"))
    ensures |args| == 2 && args[0] !in book.data ==> r == Raised(KeyError("Contact '" + args[0] + "' not found"))
    ensures |args| == 2 && args[0] in book.data ==>
      var rec := book.data[args[0]];
      && rec.phones == old(rec.phones)
      && (ParseDate(args[1]).Some? ==>
            r == Ok("Birthday added for " + args[0] + ".")
            && rec.birthday == Some(Birthday(args[1], ParseDate(args[1]).value)))
      && (ParseDate(args[1]).None? ==> r == Raised(ValueError(BirthdayError)) && rec.birthday == old(rec.birthday))
    ensures forall k :: k in book.data && (|args| != 2 || k != args[0]) ==> unchanged(book.data[k])
  {
    if |args| < 2 {
      return Raised(ValueError(AddBirthdayUsage));
    } else if |args| > 2 {
      return Raised(ValueError("too many values to unpack (expected 2)"));
    }
    var name := args[0];
    var found := book.Find(name);
    if found.None? {
      return Raised(KeyError("Contact '" + name + "' not found"));
    }
    var added := found.value.AddBirthday(args[1]);
    if added.Raised? {
      return Raised(added.exc);
    }
    return Ok("Birthday added for " + name + ".");
  }

  /** `show_birthday`: looks the first argument up and shows the birthday text as it was entered. */
  function ShowBirthday(args: seq<string>, book: AddressBook): (r: Outcome<string>)
    reads book, book.data.Values
    ensures |args| == 0 ==> r == Raised(ValueError("Please provide a contact name. Usage: show-birthday <name>"))
    ensures |args| > 0 && args[0] !in book.data ==> r == Raised(KeyError("Contact '" + args[0] + "' not found"))
    ensures |args| > 0 && args[0] in book.data ==> r.Ok?
  {
    if |args| < 1 then Raised(ValueError("Please provide a contact name. Usage: show-birthday <name>"))
    else
      var name := args[0];
      match book.Find(name)
      case None => Raised(KeyError("Contact '" + name + "' not found"))
      case Some(rec) =>
        if rec.birthday.None? then Ok("No birthday found for " + name)
        else Ok(name + "'s birthday: " + rec.birthday.value.text)
  }

  /** A birthday stored through `add_birthday` is shown back with exactly the text that was typed. */
  lemma ShowBirthdayAfterAdd(name: string, text: string, book: AddressBook)
    requires book.Valid() && name in book.data
    requires ParseDate(text).Some? && book.data[name].birthday == Some(Birthday(text, ParseDate(text).value))
    ensures ShowBirthday([name], book) == Ok(name + "'s birthday: " + text)
  {
  }

  const TypeErrorText := "AddressBook.get_upcoming_birthdays() takes 1 positional argument but 2 were given"

  /**
   * `birthdays`: checks the day count, then passes `args` to the
   * zero-argument `get_upcoming_birthdays`, which raises TypeError.
   */
  function Birthdays(args: seq<string>): (r: Outcome<string>)
    ensures |args| == 0 ==> r == Raised(ValueError("Please provide the number of days."))
    ensures |args| > 0 && ParseInt(args[0]).None? ==> r == Raised(ValueError("Number of days must be a valid integer."))
    ensures |args| > 0 && ParseInt(args[0]).Some? && ParseInt(args[0]).value < 0 ==>
      r == Raised(ValueError("Number of days must be positive."))
    ensures |args| > 0 && ParseInt(args[0]).Some? && ParseInt(args[0]).value >= 0 ==>
      r == Raised(OtherError("TypeError", TypeErrorText))
  {
    if |args| < 1 then Raised(ValueError("Please provide the number of days."))
    else
      match ParseInt(args[0])
      case None => Raised(ValueError("Number of days must be a valid integer."))
      case Some(n) =>
        if n < 0 then Raised(ValueError("Number of days must be positive."))
        else Raised(OtherError("TypeError", TypeErrorText))
  }

  /** As written the command never lists birthdays, whatever its arguments. */
  lemma BirthdaysNeverSucceeds(args: seq<string>)
    ensures !Birthdays(args).Ok?
  {
  }

  /** A day count like "7", within `int()`'s digit limit, ends in the TypeError. */
  lemma BirthdaysOfCount(n: nat)
    requires |NatToString(n)| <= MaxStrDigits
    ensures Birthdays([NatToString(n)]) == Raised(OtherError("TypeError", TypeErrorText))
  {
    ParseIntOfNatToString(n);
  }

  /** A day count beyond `int()`'s digit limit gets the "valid integer" reply, not the TypeError. */
  lemma BirthdaysOverLimit(s: string)
    requires AllDigits(s) && |s| > MaxStrDigits
    ensures Birthdays([s]) == Raised(ValueError("Number of days must be a valid integer."))
  {
    ParseIntOverLimit(s);
  }

  const DeleteContactUsage := "Please provide a contact name. Usage: delete-contact <name>"

  /** What `delete_contact` returns or raises, decided by the book before the call. */
  function DeleteContactOutcome(args: seq<string>, book: AddressBook): Outcome<string>
    reads book
  {
    if |args| == 0 then Raised(ValueError(DeleteContactUsage))
    else if args[0] in book.data then Ok("Contact '" + args[0] + "' deleted.")
    else Raised(KeyError("Contact '" + args[0] + "' not found"))
  }

  /** The address book after `delete_contact`: the name leaves the map and the key order; no record changes. */
  twostate predicate DeleteContactEffect(args: seq<string>, book: AddressBook)
    reads book, book.data.Values
  {
    && (|args| == 0 ==> book.keys == old(book.keys) && book.data == old(book.data))
    && (|args| > 0 ==> book.data == old(book.data) - {args[0]} && book.keys == RemoveFirst(old(book.keys), args[0]))
    && forall k :: k in book.data ==> unchanged(book.data[k])
  }

  /** `delete_contact`: removes the named contact, or answers with a KeyError naming it. */
  method DeleteContact(args: seq<string>, book: AddressBook) returns (r: Outcome<string>)
    requires book.Valid()
    modifies book
    ensures book.Valid()
    ensures r == old(DeleteContactOutcome(args, book))
    ensures DeleteContactEffect(args, book)
  {
    if |args| < 1 {
      return Raised(ValueError(DeleteContactUsage));
    }
    var name := args[0];
    var deleted := book.Delete(name);
    if deleted.Raised? {
      return Raised(KeyError("Contact '" + name + "' not found"));
    }
    return Ok("Contact '" + name + "' deleted.");
  }

  // ---------------------------------------------------------------------
  // Note book handlers
  // ---------------------------------------------------------------------

  /** `[tag.strip() for tag in tags]`. */
  function StripAll(xs: seq<string>): (r: seq<string>)
    ensures |r| == |xs|
    ensures forall i :: 0 <= i < |xs| ==> r[i] == Strip(xs[i])
  {
    seq(|xs|, i requires 0 <= i < |xs| => Strip(xs[i]))
  }

  /** What `add_note` returns or raises. */
  function AddNoteOutcome(args: seq<string>): Outcome<string> {
    if |args| < 2 then Raised(ValueError("Please provide a title and content for the note."))
    else Ok("Note added: " + args[0])
  }

  /**
   * The note book after `add_note`: with two arguments one fresh note is
   * appended, titled by the first argument, with all the rest joined by
   * spaces as content and the stripped arguments from the third on as
   * tags; the notes already there are untouched.
   */
  twostate predicate AddNoteEffect(args: seq<string>, nb: NoteBook)
    reads nb, nb.notes
  {
    && (|args| < 2 ==> nb.notes == old(nb.notes))
    && (|args| >= 2 ==>
      && |nb.notes| == |old(nb.notes)| + 1 && nb.notes[..|old(nb.notes)|] == old(nb.notes)
      && fresh(nb.notes[|old(nb.notes)|])
      && nb.notes[|old(nb.notes)|].title == args[0]
      && nb.notes[|old(nb.notes)|].content == Join(" ", args[1..])
      && nb.notes[|old(nb.notes)|].tags == StripAll(args[2..]))
    && forall j :: 0 <= j < |old(nb.notes)| ==> unchanged(nb.notes[j])
  }

  /**
   * `add_note`: the title is the first argument, the content is all the
   * rest joined with spaces, and the tags are the arguments after the
   * second, which therefore also appear in the content.
   */
  method AddNote(args: seq<string>, nb: NoteBook) returns (r: Outcome<string>)
    modifies nb
    ensures r == AddNoteOutcome(args)
    ensures AddNoteEffect(args, nb)
  {
    if |args| < 2 {
      return Raised(ValueError("Please provide a title and content for the note."));
    }
    var title, content := args[0], Join(" ", args[1..]);
    // `[tag.strip() for tag in args[2:]]` is empty when there are only two arguments
    var tags := StripAll(args[2..]);
    var note := new Note(title, content, tags);
    var msg := nb.Add(note);
    assert nb.notes[|old(nb.notes)|] == note;
    return Ok(msg);
  }

  /** Every tag of a note added from typed words is also a word of its content. */
  lemma AddNoteTagsInContent(args: seq<string>, i: nat)
    requires |args| >= 2 && 2 <= i < |args|
    requires forall k :: 0 <= k < |args| ==> args[k] != [] && NoSpace(args[k])
    ensures StripAll(args[2..])[i - 2] == args[i]
    ensures args[i] in Split(Join(" ", args[1..]))
  {
    TokenIsStripped(args[i]);
    SplitJoin(args[1..]);
    assert args[1..][i - 1] == args[i];
  }

  /** What `remove_note` returns or raises, decided by the notes before the call. */
  function RemoveNoteOutcome(args: seq<string>, nb: NoteBook): Outcome<string>
    reads nb, nb.notes
  {
    if |args| == 0 then Raised(ValueError("Please provide a title of the note to remove."))
    else if args[0] in nb.Titles() then Ok("Note '" + args[0] + "' removed.")
    else Ok("Note '" + args[0] + "' not found.")
  }

  /** The note book after `remove_note`: the first note with the title leaves the list; no note changes. */
  twostate predicate RemoveNoteEffect(args: seq<string>, nb: NoteBook)
    reads nb, nb.notes
  {
    && (|args| == 0 || args[0] !in old(nb.Titles()) ==> nb.notes == old(nb.notes))
    && (|args| > 0 && args[0] in old(nb.Titles()) ==>
      var i := IndexOf(old(nb.Titles()), args[0]);
      nb.notes == old(nb.notes)[..i] + old(nb.notes)[i + 1..])
    && forall j :: 0 <= j < |nb.notes| ==> unchanged(nb.notes[j])
  }

  /** `remove_note`. */
  method RemoveNote(args: seq<string>, nb: NoteBook) returns (r: Outcome<string>)
    modifies nb
    ensures r == old(RemoveNoteOutcome(args, nb))
    ensures RemoveNoteEffect(args, nb)
  {
    if |args| < 1 {
      return Raised(ValueError("Please provide a title of the note to remove."));
    }
    var msg := nb.Remove(args[0]);
    return Ok(msg);
  }

  /** `show_all_notes`. */
  function ShowAllNotes(args: seq<string>, nb: NoteBook): (r: Outcome<string>)
    reads nb, nb.notes
    ensures r.Ok?
    ensures args != [] ==> r.value == "No arguments expected for this command."
    ensures args == [] && nb.notes == [] ==> r.value == "No notes available."
    ensures args == [] && nb.notes != [] ==> r.value == Join("\n", NoteStrings(nb.notes))
  {
    Ok(if args == [] then nb.ShowAll() else "No arguments expected for this command.")
  }

  /** One numbered line of a note listing. */
  function NoteLine(i: nat, n: Note): string
    reads n
  {
    "  " + NatToString(i + 1) + ". Title: " + n.title + ", Content: " + n.content + ", Tags: " + Join(", ", n.tags)
  }

  function NoteLines(ns: seq<Note>): (r: seq<string>)
    reads ns
    ensures |r| == |ns|
    ensures forall i :: 0 <= i < |ns| ==> r[i] == NoteLine(i, ns[i])
  {
    if ns == [] then [] else NoteLines(ns[..|ns| - 1]) + [NoteLine(|ns| - 1, ns[|ns| - 1])]
  }

  /** A header line followed by one numbered line per note. */
  function Listing(header: string, ns: seq<Note>): string
    reads ns
  {
    Join("\n", [header] + NoteLines(ns))
  }

  /** `search_notes`: the query is all arguments joined with spaces; the listing shows exactly `search`'s notes. */
  function SearchNotes(args: seq<string>, nb: NoteBook): (r: Outcome<string>)
    reads nb, nb.notes
    ensures |args| == 0 ==> r == Raised(ValueError("Please provide a search query."))
    ensures |args| > 0 ==>
      var q := Join(" ", args);
      var found := nb.Search(q);
      && (found == [] ==> r == Ok("No notes found matching '" + q + "'."))
      && (found != [] ==> r == Ok(Listing("Found " + NatToString(|found|) + " note(s) for note '" + q + "':", found)))
  {
    if |args| < 1 then Raised(ValueError("Please provide a search query."))
    else
      var q := Join(" ", args);
      var found := nb.Search(q);
      if found != [] then Ok(Listing("Found " + NatToString(|found|) + " note(s) for note '" + q + "':", found))
      else Ok("No notes found matching '" + q + "'.")
  }

  /** The arguments of `edit_note` as `NoteBook.edit` receives them. */
  function EditArguments(args: seq<string>): (r: (string, Option<string>, Option<string>, Option<seq<string>>))
    requires |args| >= 1
    ensures r.0 == args[0]
    ensures r.1.Some? <==> |args| > 1
    ensures r.2.Some? <==> |args| > 2
    ensures r.3.Some? <==> |args| > 3
    ensures |args| > 1 ==> r.1.value == args[1]
    ensures |args| > 2 ==> r.2.value == Join(" ", args[2..])
    ensures |args| > 3 ==> r.3.value == args[3..]
  {
    (args[0],
     if |args| > 1 then Some(args[1]) else None,
     if |args| > 2 then Some(Join(" ", args[2..])) else None,
     if |args| > 3 then Some(args[3..]) else None)
  }

  /** With four or more words, the new tags are also the tail of the new content. */
  lemma EditTagsInContent(args: seq<string>)
    requires |args| > 3
    requires forall k :: 0 <= k < |args| ==> args[k] != [] && NoSpace(args[k])
    ensures var (_, _, c, t) := EditArguments(args);
      Split(c.value) == [args[2]] + t.value
  {
    SplitJoin(args[2..]);
    assert args[2..] == [args[2]] + args[3..];
  }

  /** What `edit_note` returns or raises, decided by the notes before the call. */
  function EditNoteOutcome(args: seq<string>, nb: NoteBook): Outcome<string>
    reads nb, nb.notes
  {
    if |args| == 0 then Raised(ValueError("Please provide the title of the note to edit."))
    else if args[0] in nb.Titles() then Ok("Note '" + args[0] + "' updated.")
    else Ok("Note '" + args[0] + "' not found.")
  }

  /**
   * The note book after `edit_note`: the list is the same, the first note
   * with the title takes the fields given, and every other note is untouched.
   */
  twostate predicate EditNoteEffect(args: seq<string>, nb: NoteBook)
    reads nb, nb.notes
  {
    && nb.notes == old(nb.notes)
    && (|args| == 0 || args[0] !in old(nb.Titles()) ==> forall j :: 0 <= j < |nb.notes| ==> unchanged(nb.notes[j]))
    && (|args| > 0 && args[0] in old(nb.Titles()) ==>
      var (title, newTitle, newContent, newTags) := EditArguments(args);
      var n := nb.notes[IndexOf(old(nb.Titles()), title)];
      && n.title == (if newTitle.Some? then newTitle.value else old(n.title))
      && n.content == (if newContent.Some? then newContent.value else old(n.content))
      && n.tags == (if newTags.Some? then newTags.value else old(n.tags))
      && forall j :: 0 <= j < |nb.notes| && nb.notes[j] != n ==> unchanged(nb.notes[j]))
  }

  /** `edit_note`. */
  method EditNote(args: seq<string>, nb: NoteBook) returns (r: Outcome<string>)
    modifies nb.notes
    ensures r == old(EditNoteOutcome(args, nb))
    ensures EditNoteEffect(args, nb)
  {
    if |args| < 1 {
      return Raised(ValueError("Please provide the title of the note to edit."));
    }
    var (title, newTitle, newContent, newTags) := EditArguments(args);
    var msg := nb.Edit(title, newTitle, newContent, newTags);
    return Ok(msg);
  }

  /** `search_notes_by_tag`: lists exactly the notes carrying the first argument as a tag. */
  function SearchNotesByTag(args: seq<string>, nb: NoteBook): (r: Outcome<string>)
    reads nb, nb.notes
    ensures |args| == 0 ==> r == Raised(ValueError("Please provide a tag to search for."))
    ensures |args| > 0 ==>
      var found := nb.SearchByTag(args[0]);
      && (found == [] ==> r == Ok("No notes found matching for tag '" + args[0] + "'."))
      && (found != [] ==> r == Ok(Listing("Found " + NatToString(|found|) + " note(s) for tag '" + args[0] + "':", found)))
  {
    if |args| < 1 then Raised(ValueError("Please provide a tag to search for."))
    else
      var tag := args[0];
      var found := nb.SearchByTag(tag);
      if found != [] then Ok(Listing("Found " + NatToString(|found|) + " note(s) for tag '" + tag + "':", found))
      else Ok("No notes found matching for tag '" + tag + "'.")
  }

  /** `sort_notes_by_tag`: any argument is an error; otherwise the sorted notes themselves. */
  function SortNotesByTag(args: seq<string>, nb: NoteBook): (r: Outcome<seq<Note>>)
    reads nb, nb.notes
    ensures args != [] ==> r == Raised(ValueError("No arguments expected for this command."))
    ensures args == [] ==> r.Ok? && multiset(r.value) == multiset(nb.notes)
  {
    SortByTagFacts(nb);
    if args != [] then Raised(ValueError("No arguments expected for this command."))
    else Ok(nb.SortByTag())
  }

  /** What `add_tag_to_note` returns or raises, decided by the notes before the call. */
  function AddTagToNoteOutcome(args: seq<string>, nb: NoteBook): Outcome<string>
    reads nb, nb.notes
  {
    if |args| < 2 then Raised(ValueError("Please provide a title and a tag to add."))
    else if args[0] !in nb.Titles() then Raised(KeyError("Note '" + args[0] + "' not found"))
    else Ok("Tag '" + args[1] + "' added to note '" + args[0] + "'.")
  }

  /** The note book after `add_tag_to_note`: only the first note with the title changes, gaining the tag once. */
  twostate predicate AddTagToNoteEffect(args: seq<string>, nb: NoteBook)
    reads nb, nb.notes
  {
    && nb.notes == old(nb.notes)
    && (|args| < 2 || args[0] !in old(nb.Titles()) ==> forall j :: 0 <= j < |nb.notes| ==> unchanged(nb.notes[j]))
    && (|args| >= 2 && args[0] in old(nb.Titles()) ==>
      var n := nb.notes[IndexOf(old(nb.Titles()), args[0])];
      && n.tags == WithTag(old(n.tags), args[1])
      && n.title == old(n.title) && n.content == old(n.content)
      && forall j :: 0 <= j < |nb.notes| && nb.notes[j] != n ==> unchanged(nb.notes[j]))
  }

  /** `add_tag_to_note`: tags the first note with the given title, or raises KeyError and changes nothing. */
  method AddTagToNote(args: seq<string>, nb: NoteBook) returns (r: Outcome<string>)
    modifies nb.notes
    ensures r == old(AddTagToNoteOutcome(args, nb))
    ensures AddTagToNoteEffect(args, nb)
  {
    if |args| < 2 {
      return Raised(ValueError("Please provide a title and a tag to add."));
    }
    var title, tag := args[0], args[1];
    var found := nb.Find(title);
    if found.None? {
      return Raised(KeyError("Note '" + title + "' not found"));
    }
    var msg := found.value.AddTag(tag);
    return Ok(msg);
  }

  /** What `remove_tag_from_note` returns or raises, decided by the notes before the call. */
  function RemoveTagFromNoteOutcome(args: seq<string>, nb: NoteBook): Outcome<string>
    reads nb, nb.notes
  {
    if |args| < 2 then Raised(ValueError("Please provide a title and a tag to remove."))
    else if args[0] !in nb.Titles() then Raised(KeyError("Note '" + args[0] + "' not found"))
    else
      var n := nb.notes[IndexOf(nb.Titles(), args[0])];
      Ok(if args[1] in n.tags
         then "Tag '" + args[1] + "' removed from note '" + args[0] + "'."
         else "Tag '" + args[1] + "' not found in note '" + args[0] + "'.")
  }

  /** The note book after `remove_tag_from_note`: only the first note with the title changes, losing the tag's first copy. */
  twostate predicate RemoveTagFromNoteEffect(args: seq<string>, nb: NoteBook)
    reads nb, nb.notes
  {
    && nb.notes == old(nb.notes)
    && (|args| < 2 || args[0] !in old(nb.Titles()) ==> forall j :: 0 <= j < |nb.notes| ==> unchanged(nb.notes[j]))
    && (|args| >= 2 && args[0] in old(nb.Titles()) ==>
      var n := nb.notes[IndexOf(old(nb.Titles()), args[0])];
      && n.tags == RemoveFirst(old(n.tags), args[1])
      && n.title == old(n.title) && n.content == old(n.content)
      && forall j :: 0 <= j < |nb.notes| && nb.notes[j] != n ==> unchanged(nb.notes[j]))
  }

  /** `remove_tag_from_note`: untags the first note with the given title, or raises KeyError and changes nothing. */
  method RemoveTagFromNote(args: seq<string>, nb: NoteBook) returns (r: Outcome<string>)
    modifies nb.notes
    ensures r == old(RemoveTagFromNoteOutcome(args, nb))
    ensures RemoveTagFromNoteEffect(args, nb)
  {
    if |args| < 2 {
      return Raised(ValueError("Please provide a title and a tag to remove."));
    }
    var title, tag := args[0], args[1];
    var found := nb.Find(title);
    if found.None? {
      return Raised(KeyError("Note '" + title + "' not found"));
    }
    var msg := found.value.RemoveTag(tag);
    return Ok(msg);
  }
}
