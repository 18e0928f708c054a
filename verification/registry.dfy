/**
 * The command registry: one record per command word, naming its handler,
 * its help text, the book it works on and whether that book is saved
 * afterwards. Lookups, the sorted list of names used for completion and
 * the per-category grouping behind the help screen.
 */
module Registry {
  import opened Errors
  import opened Text
  import opened Lists
  import opened Sorting

  /**
   * The handler a command calls. `Unavailable` stands for a handler the
   * registry imports from the command module but that the command module
   * does not define.
   */
  datatype Handler =
    | HelpHandler
    | ExitHandler
    | AddContactHandler
    | SearchContactsHandler
    | DeleteContactHandler
    | BirthdaysHandler
    | AddNoteHandler
    | RemoveNoteHandler
    | ShowAllNotesHandler
    | SearchNotesHandler
    | EditNoteHandler
    | SearchNotesByTagHandler
    | SortNotesByTagHandler
    | AddTagToNoteHandler
    | RemoveTagFromNoteHandler
    | Unavailable(function_name: string)

  datatype Command = Command(
    name: string,
    handler: Handler,
    description: string,
    usage: string,
    category: Category,
    saveAddressBook: bool,
    saveNoteBook: bool)

  /** The category text of a command: the three the program uses, or any other text. */
  datatype Category = GeneralCategory | AddressBookCategory | NoteBookCategory | OtherCategory(text: string)

  /** The category as the program spells it. */
  function CategoryName(c: Category): string {
    match c
    case GeneralCategory => "General"
    case AddressBookCategory => "Address Book"
    case NoteBookCategory => "Note Book"
    case OtherCategory(text) => text
  }

  /** The categories of the help screen, in the order it shows them. */
  const Categories := [GeneralCategory, AddressBookCategory, NoteBookCategory]

  /** Every registration of `_register_all_commands`, in order. */
  const Table: seq<Command> := [
    Command("help", HelpHandler, "Show this help message", "help", GeneralCategory, false, false),
    Command("exit", ExitHandler, "Exit the program", "exit", GeneralCategory, false, false),
    Command("close", ExitHandler, "Exit the program", "close", GeneralCategory, false, false),
    Command("add-contact", AddContactHandler, "Add a new contact with phone, optional email and birthday",
      "add-contact <name> <phone> [email] [birthday]", AddressBookCategory, true, false),
    Command("edit-phone", Unavailable("edit_phone"), "Edit existing phone number",
      "edit-phone <name> <old_phone> <new_phone>", AddressBookCategory, true, false),
    Command("add-phone", Unavailable("add_phone"), "Add additional phone number to contact",
      "add-phone <name> <phone>", AddressBookCategory, true, false),
    Command("remove-phone", Unavailable("remove_phone"), "Remove specific phone number from contact",
      "remove-phone <name> <phone>", AddressBookCategory, true, false),
    Command("edit-email", Unavailable("edit_email"), "Add or update email",
      "edit-email <name> <new_email>", AddressBookCategory, true, false),
    Command("edit-birthday", Unavailable("edit_birthday"), "Add or update birthday",
      "edit-birthday <name> <DD.MM.YYYY>", AddressBookCategory, true, false),
    Command("edit-address", Unavailable("edit_address"), "Add or update address",
      "edit-address <name> <new_address>", AddressBookCategory, true, false),
    Command("edit-name", Unavailable("edit_name"), "Rename contact",
      "edit-name <old_name> <new_name>", AddressBookCategory, true, false),
    Command("show-contact", Unavailable("show_contact"), "Show specific contact",
      "show-contact <name>", AddressBookCategory, false, false),
    Command("show-contacts", Unavailable("show_contacts"), "Show all contacts",
      "show-contacts", AddressBookCategory, false, false),
    Command("search-contacts", SearchContactsHandler, "Search contacts by name, phone, email, or address",
      "search-contacts <query>", AddressBookCategory, false, false),
    Command("delete-contact", DeleteContactHandler, "Delete a contact",
      "delete-contact <name>", AddressBookCategory, true, false),
    Command("birthdays", BirthdaysHandler, "Show upcoming birthdays",
      "birthdays <days>", AddressBookCategory, false, false),
    Command("add-note", AddNoteHandler, "Add a new note",
      "add-note \"title\" \"content\" \"tag1,tag2\"", NoteBookCategory, false, true),
    Command("remove-note", RemoveNoteHandler, "Remove a note by title",
      "remove-note \"title\"", NoteBookCategory, false, true),
    Command("show-all-notes", ShowAllNotesHandler, "Show all notes",
      "show-all-notes", NoteBookCategory, false, false),
    Command("show-note", Unavailable("show_note"), "Show a specific note by title",
      "show-note \"title\"", NoteBookCategory, false, false),
    Command("search-notes", SearchNotesHandler, "Search notes by title or content",
      "search-notes \"query\"", NoteBookCategory, false, false),
    Command("edit-note", EditNoteHandler, "Edit an existing note",
      "edit-note \"title\" \"new_title\" \"new_content\" \"new_tags\"", NoteBookCategory, false, true),
    Command("search-notes-by-tag", SearchNotesByTagHandler, "Search notes by a specific tag",
      "search-notes-by-tag \"tag\"", NoteBookCategory, false, false),
    Command("sort-notes-by-tag", SortNotesByTagHandler, "Sort notes by their tags",
      "sort-notes-by-tag", NoteBookCategory, false, false),
    Command("add-tag-to-note", AddTagToNoteHandler, "Add a tag to an existing note",
      "add-tag-to-note \"title\" \"tag\"", NoteBookCategory, false, true),
    Command("remove-tag-from-note", RemoveTagFromNoteHandler, "Remove a tag from an existing note",
      "remove-tag-from-note \"title\" \"tag\"", NoteBookCategory, false, true)
  ]

  function Names(cs: seq<Command>): (r: seq<string>)
    ensures |r| == |cs|
    ensures forall i :: 0 <= i < |cs| ==> r[i] == cs[i].name
  {
    seq(|cs|, i requires 0 <= i < |cs| => cs[i].name)
  }

  /** The dictionary after registering `cs` in order: a later registration of a name replaces the earlier one. */
  function Registered(cs: seq<Command>): (m: map<string, Command>)
    ensures forall k :: k in m <==> k in Names(cs)
    ensures forall k :: k in m ==> m[k].name == k
  {
    if cs == [] then map[]
    else
      var init := cs[..|cs| - 1];
      assert forall k :: k in Names(cs) <==> k in Names(init) || k == cs[|cs| - 1].name by {
        assert Names(cs) == Names(init) + [cs[|cs| - 1].name];
      }
      Registered(init)[cs[|cs| - 1].name := cs[|cs| - 1]]
  }

  /** The key order of that dictionary: a name keeps the place of its first registration. */
  function KeyOrder(cs: seq<Command>): seq<string> {
    if cs == [] then []
    else
      var init := KeyOrder(cs[..|cs| - 1]);
      if cs[|cs| - 1].name in init then init else init + [cs[|cs| - 1].name]
  }

  /** When no name is registered twice, the key order is the registration order and each name maps to its own entry. */
  lemma {:induction false} RegisteredDistinct(cs: seq<Command>)
    requires Distinct(Names(cs))
    ensures KeyOrder(cs) == Names(cs)
    ensures forall i :: 0 <= i < |cs| ==> Registered(cs)[cs[i].name] == cs[i]
    decreases |cs|
  {
    if cs != [] {
      var init := cs[..|cs| - 1];
      var last := cs[|cs| - 1];
      assert Names(cs) == Names(init) + [last.name];
      assert Distinct(Names(init)) by {
        forall i, j | 0 <= i < j < |init| ensures init[i].name != init[j].name {
          assert Names(cs)[i] != Names(cs)[j];
        }
      }
      RegisteredDistinct(init);
      assert last.name !in Names(init) by {
        forall i | 0 <= i < |init| ensures init[i].name != last.name {
          assert Names(cs)[i] != Names(cs)[|cs| - 1];
        }
      }
    }
  }

  /** The command words of the table, in registration order. */
  const TableNames: seq<string> := ["help", "exit", "close", "add-contact", "edit-phone", "add-phone", "remove-phone",
    "edit-email", "edit-birthday", "edit-address", "edit-name", "show-contact", "show-contacts",
    "search-contacts", "delete-contact", "birthdays", "add-note", "remove-note", "show-all-notes",
    "show-note", "search-notes", "edit-note", "search-notes-by-tag", "sort-notes-by-tag",
    "add-tag-to-note", "remove-tag-from-note"]

  lemma TableNamesInOrder()
    ensures Names(Table) == TableNames
  {
    forall i | 0 <= i < |Table| ensures Table[i].name == TableNames[i] {
      NameAt(i);
    }
  }

  lemma NameAt(i: nat)
    requires i < |Table|
    ensures Table[i].name == TableNames[i]
  {
  }

  /** The table names each command once. */
  lemma TableNamesDistinct()
    ensures Distinct(Names(Table))
  {
    TableNamesInOrder();
    forall i, j | 0 <= i < j < |TableNames| ensures TableNames[i] != TableNames[j] {
      DistinctLiteral(i, j);
    }
  }

  lemma DistinctLiteral(i: nat, j: nat)
    requires i < j < |TableNames|
    ensures TableNames[i] != TableNames[j]
  {
  }

  class CommandRegistry {
    var commands: map<string, Command>
    /** The keys of `commands` in insertion order, which is also the order of `commands.values()`. */
    var order: seq<string>

    ghost predicate Valid()
      reads this
    {
      && Distinct(order)
      && (forall k :: k in commands <==> k in order)
      && (forall k :: k in commands ==> commands[k].name == k)
    }

    /** `__init__`: an empty dictionary, then every registration of the table. */
    constructor ()
      ensures Valid()
      ensures order == Names(Table)
      ensures commands == Registered(Table)
      ensures forall i :: 0 <= i < |Table| ==> commands[Table[i].name] == Table[i]
    {
      commands := map[];
      order := [];
      new;
      RegisterAll(Table);
      TableNamesDistinct();
      RegisteredDistinct(Table);
    }

    /** `_register_all_commands`: one registration per entry, in order, starting from an empty dictionary. */
    method RegisterAll(cs: seq<Command>)
      requires Valid() && commands == map[] && order == []
      modifies this
      ensures Valid()
      ensures commands == Registered(cs)
      ensures order == KeyOrder(cs)
    {
      for i := 0 to |cs|
        invariant Valid()
        invariant commands == Registered(cs[..i])
        invariant order == KeyOrder(cs[..i])
      {
        var c := cs[i];
        assert cs[..i + 1][..i] == cs[..i];
        Register(c.name, c.handler, c.description, c.usage, c.category, c.saveAddressBook, c.saveNoteBook);
      }
      assert cs[..|cs|] == cs;
    }

    /** `_register_command`: stores the entry under its name, replacing any earlier one in place. */
    method Register(name: string, handler: Handler, description: string, usage: string,
                    category: Category, saveAddressBook: bool, saveNoteBook: bool)
      requires Valid()
      modifies this
      ensures Valid()
      ensures commands == old(commands)[name := Command(name, handler, description, usage, category, saveAddressBook, saveNoteBook)]
      ensures order == if name in old(commands) then old(order) else old(order) + [name]
    {
      commands := commands[name := Command(name, handler, description, usage, category, saveAddressBook, saveNoteBook)];
      if name !in order {
        order := order + [name];
      }
    }

    /** `get_command`: the entry registered under exactly this name. */
    function GetCommand(name: string): (r: Option<Command>)
      reads this
      ensures r.Some? <==> name in commands
      ensures r.Some? ==> r.value == commands[name]
      ensures Valid() && r.Some? ==> r.value.name == name
    {
      if name in commands then Some(commands[name]) else None
    }

    /** `is_valid_command`: true exactly when `get_command` finds an entry. */
    function IsValidCommand(name: string): (r: bool)
      reads this
      ensures r <==> GetCommand(name).Some?
    {
      name in commands
    }

    /** The entries in dictionary order, as `commands.values()` yields them. */
    function Entries(): (r: seq<Command>)
      requires Valid()
      reads this
      ensures |r| == |order|
      ensures forall i :: 0 <= i < |order| ==> r[i] == commands[order[i]]
    {
      seq(|order|, i requires 0 <= i < |order| && order[i] in commands reads this => commands[order[i]])
    }

    /** `get_all_command_names`: every registered name once, in string order. */
    function GetAllCommandNames(): (r: seq<string>)
      requires Valid()
      reads this
      ensures StringsSorted(r)
      ensures Distinct(r)
      ensures forall k :: k in r <==> k in commands
      ensures |r| == |commands|
    {
      var r := SortStrings(order);
      SortStringsSorted(order);
      DistinctPermutation(order, r);
      assert forall k :: k in r <==> k in multiset(r);
      assert |r| == |order| by { assert |multiset(r)| == |multiset(order)|; }
      assert |commands| == |order| by { CountKeys(commands, order); }
      r
    }

    /**
     * The grouping step of `get_help_text`: for each category that has
     * commands, those commands sorted by name.
     */
    method GetHelpGroups() returns (groups: seq<(Category, seq<Command>)>)
      requires Valid()
      ensures groups == HelpGroups(Entries(), Categories)
    {
      groups := GroupByCategory(Entries(), Categories);
    }
  }

  /** The `for category in categories` loop of `get_help_text`. */
  method GroupByCategory(cs: seq<Command>, categories: seq<Category>) returns (groups: seq<(Category, seq<Command>)>)
    ensures groups == HelpGroups(cs, categories)
  {
    groups := [];
    for i := 0 to |categories|
      invariant groups == HelpGroups(cs, categories[..i])
    {
      var members := SortedByName(InCategory(cs, categories[i]));
      HelpGroupsStep(cs, categories, i);
      if members != [] {
        groups := groups + [(categories[i], members)];
      }
    }
    assert categories[..|categories|] == categories;
  }

  /** One more category adds its group to the end, when it has commands. */
  lemma HelpGroupsStep(cs: seq<Command>, categories: seq<Category>, i: nat)
    requires i < |categories|
    ensures var members := SortedByName(InCategory(cs, categories[i]));
      HelpGroups(cs, categories[..i + 1]) ==
        if members == [] then HelpGroups(cs, categories[..i])
        else HelpGroups(cs, categories[..i]) + [(categories[i], members)]
  {
    assert categories[..i + 1][..i] == categories[..i];
  }

  /** A map whose keys are exactly the elements of a list without repeats has as many keys as the list has elements. */
  lemma {:induction false} CountKeys<K, V>(m: map<K, V>, ks: seq<K>)
    requires Distinct(ks) && forall k :: k in m <==> k in ks
    ensures |m| == |ks|
    decreases |ks|
  {
    if ks != [] {
      var last := ks[|ks| - 1];
      var init := ks[..|ks| - 1];
      DistinctLast(ks);
      var rest := map k | k in m && k != last :: m[k];
      CountKeys(rest, init);
      assert m.Keys == rest.Keys + {last};
    } else {
      assert m.Keys == {};
    }
  }

  /** Dropping the last element of a list without repeats leaves a list without repeats that lacks that element. */
  lemma DistinctLast<T>(ks: seq<T>)
    requires ks != [] && Distinct(ks)
    ensures Distinct(ks[..|ks| - 1]) && ks[|ks| - 1] !in ks[..|ks| - 1]
  {
    var init := ks[..|ks| - 1];
    forall i, j | 0 <= i < j < |init| ensures init[i] != init[j] {
      assert ks[i] != ks[j];
    }
    forall i | 0 <= i < |init| ensures init[i] != ks[|ks| - 1] {
      assert ks[i] != ks[|ks| - 1];
    }
  }

  /** `[cmd for cmd in commands.values() if cmd.category == category]`. */
  function InCategory(cs: seq<Command>, category: Category): (r: seq<Command>)
    ensures forall i :: 0 <= i < |r| ==> r[i] in cs && r[i].category == category
    ensures forall i :: 0 <= i < |cs| && cs[i].category == category ==> cs[i] in r
    ensures IsSubsequence(r, cs)
  {
    if cs == [] then []
    else
      var rest := InCategory(cs[1..], category);
      if cs[0].category == category then
        assert ([cs[0]] + rest)[1..] == rest;
        [cs[0]] + rest
      else
        SkipOne(rest, cs);
        rest
  }

  function ByName(cs: seq<Command>): (r: seq<(string, Command)>)
    ensures |r| == |cs|
    ensures forall i :: 0 <= i < |cs| ==> r[i] == (cs[i].name, cs[i])
    ensures Values(r) == cs
  {
    if cs == [] then [] else [(cs[0].name, cs[0])] + ByName(cs[1..])
  }

  /** `list.sort(key=lambda x: x.name)`: a stable sort on the names. */
  function SortedByName(cs: seq<Command>): seq<Command> {
    Values(SortByKey(ByName(cs)))
  }

  /** The groups of the help screen for the given categories, in their order, leaving out empty ones. */
  function HelpGroups(cs: seq<Command>, categories: seq<Category>): seq<(Category, seq<Command>)> {
    if categories == [] then []
    else
      var init := HelpGroups(cs, categories[..|categories| - 1]);
      var c := categories[|categories| - 1];
      var members := SortedByName(InCategory(cs, c));
      if members == [] then init else init + [(c, members)]
  }

  /** A group holds the same commands as its category, ordered by name. */
  lemma SortedByNameFacts(cs: seq<Command>)
    ensures |SortedByName(cs)| == |cs|
    ensures multiset(SortedByName(cs)) == multiset(cs)
    ensures forall i, j :: 0 <= i < j < |cs| ==> StrLe(SortedByName(cs)[i].name, SortedByName(cs)[j].name)
  {
    var ks := ByName(cs);
    var sorted := SortByKey(ks);
    SortByKeySorted(ks);
    SortByKeyKeys(ks);
    forall i | 0 <= i < |sorted| ensures sorted[i].0 == sorted[i].1.name {
      assert sorted[i] in ks;
    }
  }

  /** Each help group is a category in screen order with its commands, sorted by name. */
  lemma {:induction false} HelpGroupsShape(cs: seq<Command>, categories: seq<Category>)
    ensures |HelpGroups(cs, categories)| <= |categories|
    ensures forall g :: 0 <= g < |HelpGroups(cs, categories)| ==> GroupShaped(cs, categories, HelpGroups(cs, categories)[g])
    decreases |categories|
  {
    if categories != [] {
      var init := categories[..|categories| - 1];
      var c := categories[|categories| - 1];
      var before := HelpGroups(cs, init);
      var members := SortedByName(InCategory(cs, c));
      var gs := HelpGroups(cs, categories);
      assert gs == if members == [] then before else before + [(c, members)];
      HelpGroupsShape(cs, init);
      assert c in categories by { assert categories[|categories| - 1] == c; }
      NewGroupShaped(cs, categories, c);
      forall g | 0 <= g < |before| ensures GroupShaped(cs, categories, before[g]) {
        GroupShapedWiden(cs, init, categories, before[g]);
      }
    }
  }

  lemma GroupShapedWiden(cs: seq<Command>, init: seq<Category>, categories: seq<Category>, group: (Category, seq<Command>))
    requires GroupShaped(cs, init, group)
    requires categories != [] && init == categories[..|categories| - 1]
    ensures GroupShaped(cs, categories, group)
  {
    var i :| 0 <= i < |init| && init[i] == group.0;
    assert categories[i] == group.0;
  }

  lemma NewGroupShaped(cs: seq<Command>, categories: seq<Category>, c: Category)
    requires c in categories
    ensures SortedByName(InCategory(cs, c)) != [] ==> GroupShaped(cs, categories, (c, SortedByName(InCategory(cs, c))))
  {
    SortedByNameFacts(InCategory(cs, c));
  }

  /** A group of the help screen: a listed category, with its commands in name order. */
  predicate GroupShaped(cs: seq<Command>, categories: seq<Category>, group: (Category, seq<Command>)) {
    var (c, members) := group;
    && c in categories
    && members != []
    && multiset(members) == multiset(InCategory(cs, c))
    && (forall i, j :: 0 <= i < j < |members| ==> StrLe(members[i].name, members[j].name))
  }

  /**
   * With categories listed once each, the help groups follow their order:
   * every group's category is listed, and a later group's category sits
   * strictly later in the list, so no category has two groups.
   */
  lemma {:induction false} HelpGroupsInOrder(cs: seq<Command>, categories: seq<Category>)
    requires Distinct(categories)
    ensures forall g :: 0 <= g < |HelpGroups(cs, categories)| ==> HelpGroups(cs, categories)[g].0 in categories
    ensures forall g, h :: 0 <= g < h < |HelpGroups(cs, categories)| ==>
      IndexOf(categories, HelpGroups(cs, categories)[g].0) < IndexOf(categories, HelpGroups(cs, categories)[h].0)
    decreases |categories|
  {
    if categories != [] {
      var init := categories[..|categories| - 1];
      assert Distinct(init);
      HelpGroupsInOrder(cs, init);
      HelpGroupsInOrderStep(cs, categories);
    }
  }

  /** The last category's group, when there is one, comes after all the groups of the earlier categories. */
  lemma HelpGroupsInOrderStep(cs: seq<Command>, categories: seq<Category>)
    requires categories != [] && Distinct(categories)
    requires var init := categories[..|categories| - 1];
      var before := HelpGroups(cs, init);
      && (forall g :: 0 <= g < |before| ==> before[g].0 in init)
      && (forall g, h :: 0 <= g < h < |before| ==> IndexOf(init, before[g].0) < IndexOf(init, before[h].0))
    ensures forall g :: 0 <= g < |HelpGroups(cs, categories)| ==> HelpGroups(cs, categories)[g].0 in categories
    ensures forall g, h :: 0 <= g < h < |HelpGroups(cs, categories)| ==>
      IndexOf(categories, HelpGroups(cs, categories)[g].0) < IndexOf(categories, HelpGroups(cs, categories)[h].0)
  {
    var init := categories[..|categories| - 1];
    var before := HelpGroups(cs, init);
    var gs := HelpGroups(cs, categories);
    IndexOfLast(categories);
    forall g | 0 <= g < |gs| ensures gs[g].0 in categories && IndexOf(categories, gs[g].0) <= |init| {
      GroupAt(cs, categories, g);
      if g < |before| {
        var x := before[g].0;
        assert x in init;
        var k :| 0 <= k < |init| && init[k] == x;
        assert categories[k] == x;
      }
    }
    forall g, h | 0 <= g < h < |gs| ensures IndexOf(categories, gs[g].0) < IndexOf(categories, gs[h].0) {
      GroupAt(cs, categories, g);
      GroupAt(cs, categories, h);
    }
  }

  /** A group of the last category sits at the end; the others are the groups of the earlier categories. */
  lemma GroupAt(cs: seq<Command>, categories: seq<Category>, g: nat)
    requires categories != [] && g < |HelpGroups(cs, categories)|
    ensures var before := HelpGroups(cs, categories[..|categories| - 1]);
      && (g < |before| ==> HelpGroups(cs, categories)[g] == before[g])
      && (g >= |before| ==> g == |before| && HelpGroups(cs, categories)[g].0 == categories[|categories| - 1])
  {
    var c := categories[|categories| - 1];
    var before := HelpGroups(cs, categories[..|categories| - 1]);
    var members := SortedByName(InCategory(cs, c));
    assert HelpGroups(cs, categories) == if members == [] then before else before + [(c, members)];
  }

  /** In a list without repeats, the earlier values keep their places and the last value sits last. */
  lemma IndexOfLast<T>(s: seq<T>)
    requires s != [] && Distinct(s)
    ensures forall x :: x in s[..|s| - 1] ==> IndexOf(s, x) == IndexOf(s[..|s| - 1], x) < |s| - 1
    ensures IndexOf(s, s[|s| - 1]) == |s| - 1
  {
    var init := s[..|s| - 1];
    forall x | x in init ensures IndexOf(s, x) == IndexOf(init, x) {
      IndexOfPrefix(init, s, x);
    }
  }

  /** Where a prefix holds a value, the whole sequence first holds it at the same place. */
  lemma IndexOfPrefix<T>(p: seq<T>, s: seq<T>, x: T)
    requires x in p && |p| <= |s| && s[..|p|] == p
    ensures IndexOf(s, x) == IndexOf(p, x)
  {
    var i := IndexOf(p, x);
    assert s[i] == x;
    assert IndexOf(s, x) <= i;
    assert p[IndexOf(s, x)] == x;
  }

  /** The help screen shows General, Address Book and Note Book in that order, each at most once. */
  lemma HelpScreenOrder(cs: seq<Command>)
    ensures forall g :: 0 <= g < |HelpGroups(cs, Categories)| ==> HelpGroups(cs, Categories)[g].0 in Categories
    ensures forall g, h :: 0 <= g < h < |HelpGroups(cs, Categories)| ==>
      IndexOf(Categories, HelpGroups(cs, Categories)[g].0) < IndexOf(Categories, HelpGroups(cs, Categories)[h].0)
  {
    HelpGroupsInOrder(cs, Categories);
  }

  /** No command whose category the help screen lists is left out of every group. */
  lemma {:induction false} HelpGroupsCover(cs: seq<Command>, categories: seq<Category>, i: nat)
    requires i < |cs| && cs[i].category in categories
    ensures exists g :: 0 <= g < |HelpGroups(cs, categories)| && HelpGroups(cs, categories)[g].0 == cs[i].category
    decreases |categories|
  {
    var init := categories[..|categories| - 1];
    assert categories == init + [categories[|categories| - 1]];
    if cs[i].category == categories[|categories| - 1] {
      HelpGroupsCoverLast(cs, categories, i);
    } else {
      HelpGroupsCover(cs, init, i);
      HelpGroupsCoverInit(cs, categories, i);
    }
  }

  /** A command of the last category lands in the last group. */
  lemma HelpGroupsCoverLast(cs: seq<Command>, categories: seq<Category>, i: nat)
    requires i < |cs| && categories != [] && cs[i].category == categories[|categories| - 1]
    ensures exists g :: 0 <= g < |HelpGroups(cs, categories)| && HelpGroups(cs, categories)[g].0 == cs[i].category
  {
    var c := categories[|categories| - 1];
    var gs := HelpGroups(cs, categories);
    SortedByNameFacts(InCategory(cs, c));
    assert cs[i] in InCategory(cs, c);
    assert cs[i] in multiset(SortedByName(InCategory(cs, c)));
    assert gs[|gs| - 1].0 == c;
  }

  /** A group of the earlier categories is still there once the last category is added. */
  lemma HelpGroupsCoverInit(cs: seq<Command>, categories: seq<Category>, i: nat)
    requires i < |cs| && categories != []
    requires var init := HelpGroups(cs, categories[..|categories| - 1]);
      exists g :: 0 <= g < |init| && init[g].0 == cs[i].category
    ensures exists g :: 0 <= g < |HelpGroups(cs, categories)| && HelpGroups(cs, categories)[g].0 == cs[i].category
  {
    var init := HelpGroups(cs, categories[..|categories| - 1]);
    var g :| 0 <= g < |init| && init[g].0 == cs[i].category;
    assert HelpGroups(cs, categories)[g] == init[g];
  }

  /** Only address-book commands save the address book, only note-book commands save the notes, and none saves both. */
  lemma SaveFlagsFollowCategory(i: nat)
    requires i < |Table|
    ensures Table[i].saveAddressBook ==> Table[i].category == AddressBookCategory
    ensures Table[i].saveNoteBook ==> Table[i].category == NoteBookCategory
    ensures Table[i].category in Categories
  {
  }

  /** `exit` and `close` share the exit handler; `help` alone shows help; they make up the General category. */
  lemma GeneralCommands(i: nat)
    requires i < |Table|
    ensures Table[i].handler == HelpHandler <==> i == 0
    ensures Table[i].handler == ExitHandler <==> i == 1 || i == 2
    ensures Table[0].name == "help" && Table[1].name == "exit" && Table[2].name == "close"
  {
  }

  /** The General category holds exactly the first three registrations. */
  lemma GeneralEntries(i: nat)
    requires i < |Table|
    ensures Table[i].category == GeneralCategory <==> i < 3
  {
  }

  /** Whether handler `h` may sit in `category`: each handler belongs to one book, and the missing ones to any. */
  predicate Fits(h: Handler, category: Category) {
    match h
    case HelpHandler => category == GeneralCategory
    case ExitHandler => category == GeneralCategory
    case AddContactHandler => category == AddressBookCategory
    case SearchContactsHandler => category == AddressBookCategory
    case DeleteContactHandler => category == AddressBookCategory
    case BirthdaysHandler => category == AddressBookCategory
    case Unavailable(_) => true
    case _ => category == NoteBookCategory
  }

  /** A command in one of the help categories has a handler meant for that category. */
  predicate WellFormed(c: Command) {
    c.category.OtherCategory? || Fits(c.handler, c.category)
  }

  lemma TableEntryWellFormed(i: nat)
    requires i < |Table|
    ensures WellFormed(Table[i])
  {
  }

  /** Every name the table registers leads to its own entry. */
  lemma TableLookup(name: string)
    requires name in Registered(Table)
    ensures exists i :: 0 <= i < |Table| && Table[i].name == name && Registered(Table)[name] == Table[i]
  {
    TableNamesDistinct();
    RegisteredDistinct(Table);
    var i :| 0 <= i < |Table| && Names(Table)[i] == name;
  }

  /** The registry built from the table holds only well-formed commands. */
  lemma TableWellFormed()
    ensures forall k :: k in Registered(Table) ==> WellFormed(Registered(Table)[k])
  {
    forall k | k in Registered(Table) ensures WellFormed(Registered(Table)[k]) {
      TableLookup(k);
      var i :| 0 <= i < |Table| && Table[i].name == k && Registered(Table)[k] == Table[i];
      TableEntryWellFormed(i);
    }
  }

  /** `add_birthday` and `show_birthday` exist as handlers but no command word reaches them. */
  lemma BirthdayHandlersUnregistered()
    ensures "add-birthday" !in Registered(Table)
    ensures "show-birthday" !in Registered(Table)
  {
    TableNamesInOrder();
    AddBirthdayNotAWord();
    ShowBirthdayNotAWord();
  }

  lemma AddBirthdayNotAWord()
    ensures "add-birthday" !in TableNames
  {
  }

  lemma ShowBirthdayNotAWord()
    ensures "show-birthday" !in TableNames
  {
  }

  /** The command words that only show or search: `show-…`, `search-…`, `birthdays` and `sort-notes-by-tag`. */
  predicate ShowsOnly(name: string) {
    || (|name| >= 5 && name[..5] == "show-")
    || (|name| >= 7 && name[..7] == "search-")
    || name == "birthdays"
    || name == "sort-notes-by-tag"
  }

  /**
   * An entry carries neither save flag exactly when it is a General
   * command or one that only shows or searches; this includes the
   * entries without a handler, `show-contact`, `show-contacts` and `show-note`.
   */
  lemma ReadOnlyEntries(i: nat)
    requires i < |Table|
    requires Table[i].category == GeneralCategory || ShowsOnly(Table[i].name)
    ensures !Table[i].saveAddressBook && !Table[i].saveNoteBook
  {
    FlagsByIndex(i);
    if Table[i].category == GeneralCategory {
      GeneralEntries(i);
    } else {
      NameAt(i);
      ShowsOnlyLetters(TableNames[i]);
      if TableNames[i][0] == 's' {
        FirstLetterS(i);
      } else {
        BirthdaysAt(i);
      }
    }
  }

  /** Every name that only shows or searches begins with `s`, apart from `birthdays`. */
  lemma ShowsOnlyLetters(name: string)
    requires ShowsOnly(name)
    ensures name == "birthdays" || (|name| > 0 && name[0] == 's')
  {
  }

  lemma BirthdaysAt(i: nat)
    requires i < |TableNames| && TableNames[i] == "birthdays"
    ensures i == 15
  {
  }

  lemma FlagsByIndex(i: nat)
    requires i < |Table|
    ensures !Table[i].saveAddressBook && !Table[i].saveNoteBook <==> i in {0, 1, 2, 11, 12, 13, 15, 18, 19, 20, 22, 23}
  {
  }

  lemma FirstLetterS(i: nat)
    requires i < |TableNames|
    ensures TableNames[i][0] == 's' <==> i in {11, 12, 13, 18, 19, 20, 22, 23}
  {
  }

  /** Which entries save a book after running, counting only handlers the command module defines. */
  lemma SavingEntries(i: nat)
    requires i < |Table|
    ensures Table[i].saveAddressBook && !Table[i].handler.Unavailable? <==> i == 3 || i == 14
    ensures Table[i].saveNoteBook && !Table[i].handler.Unavailable? <==> i in {16, 17, 21, 24, 25}
  {
  }
}
