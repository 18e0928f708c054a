/**
 * The contact book: validated phone and birthday fields, a `Record` whose
 * phone list and birthday are edited in place, and an `AddressBook` that
 * maps each contact name to its record in insertion order (a Python dict).
 */
module Contacts {
  import opened Errors
  import opened Text
  import opened Dates
  import opened Lists

  const PhoneError := "Phone number must contain exactly 10 digits"
  const BirthdayError := "Invalid date format. Use DD.MM.YYYY"

  // ---------------------------------------------------------------------
  // Field values
  // ---------------------------------------------------------------------

  /** `Phone.validate_phone`: `isdigit()` and exactly ten characters. */
  predicate IsPhone(s: string) {
    AllDigits(s) && |s| == 10
  }

  /** The `Phone(s)` constructor: the text itself, or the ValueError it raises. */
  function MakePhone(s: string): (r: Outcome<string>)
    ensures r.Ok? <==> s != [] && AllDigits(s) && |s| == 10
    ensures r.Ok? ==> r.value == s
    ensures r.Raised? ==> r.exc == ValueError(PhoneError)
  {
    if IsPhone(s) then Ok(s) else Raised(ValueError(PhoneError))
  }

  /** A birthday keeps the text it was given and the date that text names. */
  datatype Birthday = Birthday(text: string, date: Date)

  /** The `Birthday(s)` constructor: any strptime failure becomes one fixed ValueError. */
  function MakeBirthday(s: string): (r: Outcome<Birthday>)
    ensures r.Ok? <==> ParseDate(s).Some?
    ensures r.Ok? ==> r.value.text == s && Valid(r.value.date) && ParseDate(s) == Some(r.value.date)
    ensures r.Raised? ==> r.exc == ValueError(BirthdayError)
  {
    match ParseDate(s)
    case Some(d) => Ok(Birthday(s, d))
    case None => Raised(ValueError(BirthdayError))
  }

  /** Every date, written as DD.MM.YYYY, is accepted as a birthday and shown back unchanged. */
  lemma BirthdayOfFormatted(d: Date)
    requires Valid(d)
    ensures MakeBirthday(FormatDate(d)) == Ok(Birthday(FormatDate(d), d))
  {
    ParseFormat(d);
  }

  // ---------------------------------------------------------------------
  // Record
  // ---------------------------------------------------------------------

  /** A contact: a fixed name, an ordered list of phones and an optional birthday. */
  class Record {
    const name: string
    var phones: seq<string>
    var birthday: Option<Birthday>

    /** Only validated values ever reach the fields. */
    predicate Valid()
      reads this
    {
      && (forall i :: 0 <= i < |phones| ==> IsPhone(phones[i]))
      && (birthday.Some? ==> ParseDate(birthday.value.text) == Some(birthday.value.date))
    }

    constructor (name: string)
      ensures this.name == name && phones == [] && birthday == None
      ensures Valid()
    {
      this.name := name;
      phones := [];
      birthday := None;
    }

    /** `add_phone`: a valid phone goes at the end, duplicates included; an invalid one changes nothing. */
    method AddPhone(phone: string) returns (r: Outcome<()>)
      requires Valid()
      modifies this
      ensures Valid()
      ensures r == if IsPhone(phone) then Ok(()) else Raised(ValueError(PhoneError))
      ensures phones == if IsPhone(phone) then old(phones) + [phone] else old(phones)
      ensures birthday == old(birthday)
    {
      var p := MakePhone(phone);
      if p.Raised? {
        return Raised(p.exc);
      }
      phones := phones + [p.value];
      r := Ok(());
    }

    /** `find_phone`: the slot of the first phone equal to `phone`, if any. */
    method FindPhone(phone: string) returns (i: Option<nat>)
      ensures i.None? <==> phone !in phones
      ensures i.Some? ==> i.value < |phones| && phones[i.value] == phone
      ensures i.Some? ==> forall j :: 0 <= j < i.value ==> phones[j] != phone
    {
      var k := 0;
      while k < |phones|
        invariant 0 <= k <= |phones|
        invariant forall j :: 0 <= j < k ==> phones[j] != phone
      {
        if phones[k] == phone {
          return Some(k);
        }
        k := k + 1;
      }
      return None;
    }

    /** `remove_phone`: drops the first equal phone and keeps the others in order, or raises. */
    method RemovePhone(phone: string) returns (r: Outcome<()>)
      requires Valid()
      modifies this
      ensures Valid()
      ensures r.Ok? <==> phone in old(phones)
      ensures r.Raised? ==> r.exc == ValueError("Phone " + phone + " not found in record")
      ensures phones == RemoveFirst(old(phones), phone)
      ensures birthday == old(birthday)
    {
      var i := FindPhone(phone);
      if i.None? {
        return Raised(ValueError("Phone " + phone + " not found in record"));
      }
      assert i.value == IndexOf(phones, phone);
      phones := phones[..i.value] + phones[i.value + 1..];
      r := Ok(());
    }

    /**
     * `edit_phone`: the old value is looked up before the new one is checked;
     * on success only the first matching slot changes.
     */
    method EditPhone(oldPhone: string, newPhone: string) returns (r: Outcome<()>)
      requires Valid()
      modifies this
      ensures Valid()
      ensures oldPhone !in old(phones) ==> r == Raised(ValueError("Phone " + oldPhone + " not found in record"))
      ensures oldPhone in old(phones) && !IsPhone(newPhone) ==> r == Raised(ValueError(PhoneError))
      ensures r.Ok? <==> oldPhone in old(phones) && IsPhone(newPhone)
      ensures r.Ok? ==> phones == old(phones)[IndexOf(old(phones), oldPhone) := newPhone]
      ensures r.Raised? ==> phones == old(phones)
      ensures birthday == old(birthday)
    {
      var i := FindPhone(oldPhone);
      if i.None? {
        return Raised(ValueError("Phone " + oldPhone + " not found in record"));
      }
      var p := MakePhone(newPhone);
      if p.Raised? {
        return Raised(p.exc);
      }
      assert i.value == IndexOf(phones, oldPhone);
      phones := phones[i.value := p.value];
      r := Ok(());
    }

    /** `add_birthday`: replaces any earlier birthday; an unparsable text keeps the old one. */
    method AddBirthday(text: string) returns (r: Outcome<()>)
      requires Valid()
      modifies this
      ensures Valid()
      ensures r.Ok? <==> ParseDate(text).Some?
      ensures r.Raised? ==> r.exc == ValueError(BirthdayError) && birthday == old(birthday)
      ensures r.Ok? ==> birthday == Some(Birthday(text, ParseDate(text).value))
      ensures phones == old(phones)
    {
      var b := MakeBirthday(text);
      if b.Raised? {
        return Raised(b.exc);
      }
      birthday := Some(b.value);
      r := Ok(());
    }

    /** `str(record)`. */
    function ToString(): string
      reads this
    {
      "Contact name: " + name + ", phones: " + Join("; ", phones)
      + (if birthday.Some? then ", birthday: " + birthday.value.text else "")
    }
  }

  // ---------------------------------------------------------------------
  // Upcoming birthdays, as values
  // ---------------------------------------------------------------------

  /** One line of `get_upcoming_birthdays`' result. */
  datatype Greeting = Greeting(name: string, congratulationDate: string)

  /** What the birthday scan needs from a record: its name and its birthday date. */
  type Entry = (string, Option<Date>)

  predicate EntriesValid(es: seq<Entry>) {
    forall i :: 0 <= i < |es| ==> es[i].1.Some? ==> Valid(es[i].1.value)
  }

  /** This year's anniversary, or next year's once this year's has passed; `replace` may raise. */
  function Occurrence(birth: Date, today: Date): (r: Outcome<Date>)
    ensures r.Ok? ==> Valid(r.value)
  {
    match ReplaceYear(birth, today.year)
    case Raised(e) => Raised(e)
    case Ok(d) => if Before(d, today) then ReplaceYear(d, today.year + 1) else Ok(d)
  }

  /** Saturday and Sunday move to the following Monday. */
  function Congratulate(d: Date): Outcome<Date>
    requires Valid(d)
  {
    if Weekday(d) == 5 then AddDays(d, 2)
    else if Weekday(d) == 6 then AddDays(d, 1)
    else Ok(d)
  }

  /** The greeting one record contributes, if its next birthday lies in [today, nextWeek]. */
  function Report(e: Entry, today: Date, nextWeek: Date): Outcome<Option<Greeting>>
    requires e.1.Some? ==> Valid(e.1.value)
  {
    if e.1.None? then Ok(None)
    else
      match Occurrence(e.1.value, today)
      case Raised(x) => Raised(x)
      case Ok(o) =>
        if !Before(o, today) && !Before(nextWeek, o) then
          match Congratulate(o)
          case Raised(x) => Raised(x)
          case Ok(c) => Ok(Some(Greeting(e.0, FormatDate(c))))
        else Ok(None)
  }

  /** One step of the scan: an exception so far, or from this record, ends it. */
  function Extend(sofar: Outcome<seq<Greeting>>, report: Outcome<Option<Greeting>>): Outcome<seq<Greeting>> {
    match sofar
    case Raised(x) => Raised(x)
    case Ok(gs) =>
      match report
      case Raised(x) => Raised(x)
      case Ok(None) => Ok(gs)
      case Ok(Some(g)) => Ok(gs + [g])
  }

  /** The scan over the records in book order; the first exception ends it. */
  function Collect(es: seq<Entry>, today: Date, nextWeek: Date): Outcome<seq<Greeting>>
    requires EntriesValid(es)
  {
    if es == [] then Ok([])
    else Extend(Collect(es[..|es| - 1], today, nextWeek), Report(es[|es| - 1], today, nextWeek))
  }

  /** `get_upcoming_birthdays` with `date.today()` given as `today`. */
  function Upcoming(es: seq<Entry>, today: Date): Outcome<seq<Greeting>>
    requires Valid(today) && EntriesValid(es)
  {
    match AddDays(today, 7)
    case Raised(x) => Raised(x)
    case Ok(nextWeek) => Collect(es, today, nextWeek)
  }

  function GreetingNames(gs: seq<Greeting>): (r: seq<string>)
    ensures |r| == |gs|
  {
    if gs == [] then [] else GreetingNames(gs[..|gs| - 1]) + [gs[|gs| - 1].name]
  }

  function EntryNames(es: seq<Entry>): (r: seq<string>)
    ensures |r| == |es|
  {
    if es == [] then [] else EntryNames(es[..|es| - 1]) + [es[|es| - 1].0]
  }

  // ---------------------------------------------------------------------
  // AddressBook
  // ---------------------------------------------------------------------

  /** The records stored under `ks`, in that order. */
  function RecordsAt(ks: seq<string>, m: map<string, Record>): (r: seq<Record>)
    requires forall k :: k in ks ==> k in m
    ensures |r| == |ks|
    ensures forall i :: 0 <= i < |ks| ==> r[i] == m[ks[i]]
  {
    if ks == [] then [] else RecordsAt(ks[..|ks| - 1], m) + [m[ks[|ks| - 1]]]
  }

  function EntryOf(rec: Record): Entry
    reads rec
  {
    (rec.name, if rec.birthday.Some? then Some(rec.birthday.value.date) else None)
  }

  function EntriesOf(rs: seq<Record>): (r: seq<Entry>)
    reads set i | 0 <= i < |rs| :: rs[i]
    ensures |r| == |rs|
    ensures forall i :: 0 <= i < |rs| ==> r[i] == EntryOf(rs[i])
  {
    if rs == [] then [] else EntriesOf(rs[..|rs| - 1]) + [EntryOf(rs[|rs| - 1])]
  }

  /** Contact name to record, iterated in the order names were first added. */
  class AddressBook {
    var keys: seq<string>
    var data: map<string, Record>

    /** `keys` is the dict's key order; each record is filed under its own name and holds valid fields. */
    ghost predicate Valid()
      reads this, data.Values
    {
      && Distinct(keys)
      && (forall k :: k in data <==> k in keys)
      && (forall k :: k in data ==> data[k].name == k && data[k].Valid())
    }

    constructor ()
      ensures keys == [] && data == map[]
      ensures Valid()
    {
      keys := [];
      data := map[];
    }

    /** The records in iteration order, as `data.values()` yields them. */
    function Records(): (r: seq<Record>)
      requires Valid()
      reads this, data.Values
      ensures |r| == |keys|
      ensures forall i :: 0 <= i < |keys| ==> r[i] == data[keys[i]]
    {
      RecordsAt(keys, data)
    }

    /** `find`: `data.get(name)`. */
    function Find(name: string): (r: Option<Record>)
      reads this
      ensures r.Some? <==> name in data
      ensures r.Some? ==> r.value == data[name]
    {
      if name in data then Some(data[name]) else None
    }

    /** `add_record`: files the record under its name, replacing any earlier record of that name. */
    method AddRecord(record: Record)
      requires Valid() && record.Valid()
      modifies this
      ensures Valid()
      ensures data == old(data)[record.name := record]
      ensures keys == if record.name in old(data) then old(keys) else old(keys) + [record.name]
      ensures Find(record.name) == Some(record)
      ensures forall k :: k != record.name ==> Find(k) == old(Find(k))
    {
      if record.name !in data {
        keys := keys + [record.name];
      }
      data := data[record.name := record];
    }

    /** `delete`: removes exactly that name, or raises KeyError and changes nothing. */
    method Delete(name: string) returns (r: Outcome<()>)
      requires Valid()
      modifies this
      ensures Valid()
      ensures r.Ok? <==> name in old(data)
      ensures r.Raised? ==> r.exc == KeyError("Record with name '" + name + "' not found")
      ensures data == old(data) - {name}
      ensures keys == RemoveFirst(old(keys), name)
      ensures Find(name) == None
      ensures forall k :: k != name ==> Find(k) == old(Find(k))
    {
      if name !in data {
        return Raised(KeyError("Record with name '" + name + "' not found"));
      }
      RemoveFirstDistinct(keys, name);
      keys := RemoveFirst(keys, name);
      data := data - {name};
      r := Ok(());
    }

    /** What the scan reads from each record, in book order. */
    function Entries(): (es: seq<Entry>)
      requires Valid()
      reads this, data.Values
      ensures EntriesValid(es)
      ensures |es| == |keys|
      ensures forall i :: 0 <= i < |keys| ==> es[i] == EntryOf(data[keys[i]])
    {
      var rs := Records();
      assert forall i :: 0 <= i < |rs| ==> rs[i] in data.Values;
      var es := EntriesOf(rs);
      assert EntriesValid(es) by {
        forall i | 0 <= i < |es| && es[i].1.Some? ensures Dates.Valid(es[i].1.value) {
          assert data[keys[i]].Valid();
        }
      }
      es
    }

    /** `get_upcoming_birthdays`, scanning the records in book order. */
    method GetUpcomingBirthdays(today: Date) returns (r: Outcome<seq<Greeting>>)
      requires Valid() && Dates.Valid(today)
      ensures r == Upcoming(Entries(), today)
    {
      r := ScanBirthdays(Entries(), today);
    }
  }

  /** The loop of `get_upcoming_birthdays` over what it reads from each record. */
  method ScanBirthdays(es: seq<Entry>, today: Date) returns (r: Outcome<seq<Greeting>>)
    requires Valid(today) && EntriesValid(es)
    ensures r == Upcoming(es, today)
  {
    var next := AddDays(today, 7);
    if next.Raised? {
      return Raised(next.exc);
    }
    var nextWeek := next.value;
    var acc: seq<Greeting> := [];
    var i := 0;
    while i < |es|
      invariant 0 <= i <= |es|
      invariant Collect(es[..i], today, nextWeek) == Ok(acc)
    {
      var g := ReportBirthday(es[i], today, nextWeek);
      CollectStep(es, i, today, nextWeek);
      if g.Raised? {
        CollectStops(es, i + 1, today, nextWeek);
        return Raised(g.exc);
      }
      if g.value.Some? {
        acc := acc + [g.value.value];
      }
      i := i + 1;
    }
    assert es[..|es|] == es;
    r := Ok(acc);
  }

  /** The body of the scan for one record: the steps of `get_upcoming_birthdays` in their order. */
  method ReportBirthday(e: Entry, today: Date, nextWeek: Date) returns (r: Outcome<Option<Greeting>>)
    requires e.1.Some? ==> Valid(e.1.value)
    ensures r == Report(e, today, nextWeek)
  {
    if e.1.None? {
      return Ok(None);
    }
    var thisYear := ReplaceYear(e.1.value, today.year);
    if thisYear.Raised? {
      return Raised(thisYear.exc);
    }
    var o := thisYear.value;
    if Before(o, today) {
      var nextYear := ReplaceYear(o, today.year + 1);
      if nextYear.Raised? {
        return Raised(nextYear.exc);
      }
      o := nextYear.value;
    }
    if !Before(o, today) && !Before(nextWeek, o) {
      var c := o;
      if Weekday(c) == 5 {
        var s := AddDays(c, 2);
        if s.Raised? {
          return Raised(s.exc);
        }
        c := s.value;
      } else if Weekday(c) == 6 {
        var s := AddDays(c, 1);
        if s.Raised? {
          return Raised(s.exc);
        }
        c := s.value;
      }
      return Ok(Some(Greeting(e.0, FormatDate(c))));
    }
    return Ok(None);
  }

  /** One more record extends the scan by that record's report. */
  lemma CollectStep(es: seq<Entry>, i: nat, today: Date, nextWeek: Date)
    requires EntriesValid(es) && i < |es|
    ensures Collect(es[..i + 1], today, nextWeek) == Extend(Collect(es[..i], today, nextWeek), Report(es[i], today, nextWeek))
  {
    assert es[..i + 1][..i] == es[..i];
  }

  /** Once the scan has raised on a prefix, it raises the same exception on the whole list. */
  lemma {:induction false} CollectStops(es: seq<Entry>, n: nat, today: Date, nextWeek: Date)
    requires EntriesValid(es) && n <= |es|
    requires Collect(es[..n], today, nextWeek).Raised?
    ensures Collect(es, today, nextWeek) == Collect(es[..n], today, nextWeek)
    decreases |es| - n
  {
    if n < |es| {
      assert es[..n + 1][..n] == es[..n];
      CollectStops(es, n + 1, today, nextWeek);
    } else {
      assert es[..n] == es;
    }
  }

  // ---------------------------------------------------------------------
  // Properties of the birthday scan
  // ---------------------------------------------------------------------

  lemma LeapYearsAreApart(y: int)
    requires IsLeap(y)
    ensures !IsLeap(y + 1)
  {
  }

  /**
   * The next occurrence keeps the birthday's month and day, is never before
   * today, and falls this year unless this year's anniversary has passed.
   * It raises exactly for a 29 February birthday outside a leap year (either
   * replace call), or when the anniversary has passed in year 9999.
   */
  lemma OccurrenceFacts(birth: Date, today: Date)
    requires Valid(birth) && Valid(today)
    ensures Occurrence(birth, today).Raised? <==>
      || (birth.month == 2 && birth.day == 29 && !IsLeap(today.year))
      || (Before(Date(today.year, birth.month, birth.day), today)
          && (today.year == MaxYear || (birth.month == 2 && birth.day == 29)))
    ensures Occurrence(birth, today).Raised? ==> Occurrence(birth, today).exc.ValueError?
    ensures Occurrence(birth, today).Ok? ==>
      var o := Occurrence(birth, today).value;
      && o.month == birth.month && o.day == birth.day
      && !Before(o, today)
      && (o.year == today.year <==> !Before(Date(today.year, birth.month, birth.day), today))
      && (o.year == today.year || o.year == today.year + 1)
  {
    var thisYear := Date(today.year, birth.month, birth.day);
    if Valid(thisYear) && Before(thisYear, today) && birth.month == 2 && birth.day == 29 {
      LeapYearsAreApart(today.year);
    }
  }

  /** The weekend shift always succeeds, lands on a weekday, and moves by at most two days. */
  lemma CongratulateFacts(d: Date)
    requires Valid(d)
    ensures Congratulate(d).Ok?
    ensures Valid(Congratulate(d).value)
    ensures Weekday(Congratulate(d).value) < 5
    ensures Ordinal(Congratulate(d).value) - Ordinal(d) ==
      (if Weekday(d) == 5 then 2 else if Weekday(d) == 6 then 1 else 0)
  {
    BeforeIffOrdinal(d, MaxDate);
    assert Ordinal(MaxDate) == MaxOrdinal;
    assert Weekday(MaxDate) == 4;
    if Weekday(d) == 5 {
      ShiftToMonday(d, 2);
    } else if Weekday(d) == 6 {
      ShiftToMonday(d, 1);
    }
  }

  /** Moving a Saturday two days or a Sunday one day on lands on a Monday. */
  lemma ShiftToMonday(d: Date, n: nat)
    requires Valid(d) && Ordinal(d) + n <= MaxOrdinal && (Weekday(d) + n) % 7 == 0
    ensures AddDays(d, n).Ok? && Valid(AddDays(d, n).value)
    ensures Ordinal(AddDays(d, n).value) == Ordinal(d) + n && Weekday(AddDays(d, n).value) == 0
  {
    AddDaysOrdinal(d, n);
    WeekdayAdvance(d, AddDays(d, n).value);
  }

  /** A record's report raises only where its next occurrence does: the weekend shift never raises. */
  lemma ReportRaisesIff(e: Entry, today: Date, nextWeek: Date)
    requires e.1.Some? ==> Valid(e.1.value)
    ensures Report(e, today, nextWeek).Ok? <==> e.1.None? || Occurrence(e.1.value, today).Ok?
  {
    if e.1.Some? && Occurrence(e.1.value, today).Ok? {
      CongratulateFacts(Occurrence(e.1.value, today).value);
    }
  }

  /** A record is reported iff it has a birthday whose next occurrence lies within seven days of today. */
  lemma ReportWindow(e: Entry, today: Date)
    requires e.1.Some? ==> Valid(e.1.value)
    requires Valid(today) && Ordinal(today) + 7 <= MaxOrdinal
    ensures AddDays(today, 7).Ok?
    ensures Report(e, today, AddDays(today, 7).value).Ok? && Report(e, today, AddDays(today, 7).value).value.Some?
      <==> e.1.Some? && Occurrence(e.1.value, today).Ok?
           && Ordinal(Occurrence(e.1.value, today).value) <= Ordinal(today) + 7
  {
    assert Ordinal(MaxDate) == MaxOrdinal;
    AddDaysOrdinal(today, 7);
    var nextWeek := AddDays(today, 7).value;
    if e.1.Some? && Occurrence(e.1.value, today).Ok? {
      var o := Occurrence(e.1.value, today).value;
      OccurrenceFacts(e.1.value, today);
      BeforeIffOrdinal(nextWeek, o);
      CongratulateFacts(o);
    }
  }

  /**
   * A reported record is greeted under its own name on its next occurrence
   * moved off the weekend: a weekday, on or after today, at most two days later.
   */
  lemma ReportGreeting(e: Entry, today: Date, nextWeek: Date)
    requires e.1.Some? ==> Valid(e.1.value)
    requires Valid(today)
    requires Report(e, today, nextWeek).Ok? && Report(e, today, nextWeek).value.Some?
    ensures e.1.Some? && Occurrence(e.1.value, today).Ok?
    ensures var o := Occurrence(e.1.value, today).value;
      && Congratulate(o).Ok?
      && Report(e, today, nextWeek).value.value == Greeting(e.0, FormatDate(Congratulate(o).value))
      && Ordinal(today) <= Ordinal(o) <= Ordinal(Congratulate(o).value) <= Ordinal(o) + 2
      && Weekday(Congratulate(o).value) < 5
  {
    var o := Occurrence(e.1.value, today).value;
    OccurrenceFacts(e.1.value, today);
    BeforeIffOrdinal(o, today);
    CongratulateFacts(o);
  }

  /** The year-2024 example: a Saturday on the last day of the window is greeted two days past it. */
  lemma CongratulationCanPassWindow()
    ensures Upcoming([("Ann", Some(Date(2000, 1, 13)))], Date(2024, 1, 6))
      == Ok([Greeting("Ann", "15.01.2024")])
  {
    var today, sat := Date(2024, 1, 6), Date(2024, 1, 13);
    var es: seq<Entry> := [("Ann", Some(Date(2000, 1, 13)))];
    var g := Greeting("Ann", "15.01.2024");
    ReportInExample();
    assert es[..|es| - 1] == [];
    assert Collect(es, today, sat) == Extend(Ok([]), Ok(Some(g)));
    assert [] + [g] == [g];
  }

  lemma ReportInExample()
    ensures AddDays(Date(2024, 1, 6), 7) == Ok(Date(2024, 1, 13))
    ensures Report(("Ann", Some(Date(2000, 1, 13))), Date(2024, 1, 6), Date(2024, 1, 13))
      == Ok(Some(Greeting("Ann", "15.01.2024")))
  {
    var today, sat := Date(2024, 1, 6), Date(2024, 1, 13);
    WindowInExample();
    CongratulateInExample();
    assert Occurrence(Date(2000, 1, 13), today) == Ok(sat);
    FormatInExample();
  }

  lemma WindowInExample()
    ensures AddDays(Date(2024, 1, 6), 7) == Ok(Date(2024, 1, 13))
  {
    var today := Date(2024, 1, 6);
    AddDaysOrdinal(today, 7);
    BeforeIffOrdinal(AddDays(today, 7).value, Date(2024, 1, 13));
  }

  lemma CongratulateInExample()
    ensures Congratulate(Date(2024, 1, 13)) == Ok(Date(2024, 1, 15))
  {
    var sat := Date(2024, 1, 13);
    SaturdayInExample();
    AddDaysOrdinal(sat, 2);
    BeforeIffOrdinal(AddDays(sat, 2).value, Date(2024, 1, 15));
  }

  lemma SaturdayInExample()
    ensures Weekday(Date(2024, 1, 13)) == 5
  {
    assert DaysBeforeYear(2024) == 738885;
    assert Ordinal(Date(2024, 1, 13)) == 738898;
  }

  lemma FormatInExample()
    ensures FormatDate(Date(2024, 1, 15)) == "15.01.2024"
  {
    assert Pad2(15) == "15";
    assert Pad2(1) == "01";
    assert Pad4(2024) == "2024";
  }

  /** The whole scan succeeds iff no single record's report raises. */
  lemma {:induction false} CollectOkIff(es: seq<Entry>, today: Date, nextWeek: Date)
    requires EntriesValid(es)
    ensures Collect(es, today, nextWeek).Ok? <==>
      forall i :: 0 <= i < |es| ==> Report(es[i], today, nextWeek).Ok?
    decreases |es|
  {
    if es != [] {
      var init := es[..|es| - 1];
      CollectOkIff(init, today, nextWeek);
      assert forall i :: 0 <= i < |init| ==> init[i] == es[i];
    }
  }

  /** Greetings come out in book order, at most one per record, each naming the record it is for. */
  lemma {:induction false} CollectInBookOrder(es: seq<Entry>, today: Date, nextWeek: Date)
    requires EntriesValid(es)
    requires Collect(es, today, nextWeek).Ok?
    ensures IsSubsequence(GreetingNames(Collect(es, today, nextWeek).value), EntryNames(es))
    decreases |es|
  {
    if es == [] {
      assert GreetingNames([]) == [];
    } else {
      var init, last := es[..|es| - 1], es[|es| - 1];
      CollectInBookOrder(init, today, nextWeek);
      var gs := Collect(init, today, nextWeek).value;
      assert EntryNames(es) == EntryNames(init) + [last.0];
      match Report(last, today, nextWeek)
      case Ok(None) =>
        SubsequenceAppendRight(GreetingNames(gs), EntryNames(init), last.0);
      case Ok(Some(g)) =>
        assert g.name == last.0;
        assert GreetingNames(gs + [g]) == GreetingNames(gs) + [g.name] by {
          assert (gs + [g])[..|gs|] == gs;
        }
        SubsequenceAppendBoth(GreetingNames(gs), EntryNames(init), last.0);
    }
  }

  /** The scan raises OverflowError at once when today is past 9999-12-24. */
  lemma UpcomingOverflow(es: seq<Entry>, today: Date)
    requires Valid(today) && EntriesValid(es)
    ensures Before(Date(9999, 12, 24), today) ==>
      Upcoming(es, today) == Raised(OtherError("OverflowError", "date value out of range"))
    ensures !Before(Date(9999, 12, 24), today) ==> AddDays(today, 7).Ok?
  {
    assert Ordinal(MaxDate) == MaxOrdinal;
    assert Ordinal(Date(9999, 12, 24)) == MaxOrdinal - 7;
    BeforeIffOrdinal(Date(9999, 12, 24), today);
    AddDaysOrdinal(today, 7);
  }

  /** A 29 February birthday makes the whole call raise in a year that is not a leap year. */
  lemma LeapDayBirthdayRaises(es: seq<Entry>, today: Date, i: nat)
    requires Valid(today) && EntriesValid(es) && i < |es|
    requires es[i].1.Some? && es[i].1.value.month == 2 && es[i].1.value.day == 29 && !IsLeap(today.year)
    ensures Upcoming(es, today).Raised?
  {
    match AddDays(today, 7)
    case Raised(_) =>
    case Ok(nextWeek) =>
      OccurrenceFacts(es[i].1.value, today);
      CollectOkIff(es, today, nextWeek);
  }
}
