/**
 * The note book: notes whose title, content and tag list are edited in
 * place, kept in a list in the order they were added.
 */
module Notes {
  import opened Errors
  import opened Text
  import opened Lists
  import opened Sorting

  /** `tags` after `add_tag(tag)`: appended only when absent. */
  function WithTag(tags: seq<string>, tag: string): (r: seq<string>)
    ensures tag in r
    ensures forall t :: t in r <==> t in tags || t == tag
    ensures Distinct(tags) ==> Distinct(r)
    ensures |r| <= |tags| + 1
  {
    if tag in tags then tags else tags + [tag]
  }

  /** Adding a tag twice is the same as adding it once. */
  lemma WithTagIdempotent(tags: seq<string>, tag: string)
    ensures WithTag(WithTag(tags, tag), tag) == WithTag(tags, tag)
  {
  }

  class Note {
    var title: string
    var content: string
    var tags: seq<string>

    constructor (title: string, content: string, tags: seq<string>)
      ensures this.title == title && this.content == content && this.tags == tags
    {
      this.title := title;
      this.content := content;
      this.tags := tags;
    }

    /** `str(note)`. */
    function ToString(): string
      reads this
    {
      "Title: " + title + "\nContent: " + content + "\nTags: " + Join(", ", tags)
    }

    /** `add_tag`: the tag is present afterwards, with no duplicate introduced; the reply never varies. */
    method AddTag(tag: string) returns (msg: string)
      modifies this
      ensures tags == WithTag(old(tags), tag)
      ensures title == old(title) && content == old(content)
      ensures msg == "Tag '" + tag + "' added to note '" + title + "'."
    {
      if tag !in tags {
        tags := tags + [tag];
      }
      msg := "Tag '" + tag + "' added to note '" + title + "'.";
    }

    /** `remove_tag`: drops the first copy of the tag, the rest keeping their order, or reports it missing. */
    method RemoveTag(tag: string) returns (msg: string)
      modifies this
      ensures tags == RemoveFirst(old(tags), tag)
      ensures title == old(title) && content == old(content)
      ensures msg == if tag in old(tags)
        then "Tag '" + tag + "' removed from note '" + title + "'."
        else "Tag '" + tag + "' not found in note '" + title + "'."
    {
      if tag in tags {
        tags := RemoveFirst(tags, tag);
        return "Tag '" + tag + "' removed from note '" + title + "'.";
      }
      return "Tag '" + tag + "' not found in note '" + title + "'.";
    }
  }

  // ---------------------------------------------------------------------
  // Views over a list of notes
  // ---------------------------------------------------------------------

  function TitlesOf(ns: seq<Note>): (r: seq<string>)
    reads ns
    ensures |r| == |ns|
    ensures forall i :: 0 <= i < |ns| ==> r[i] == ns[i].title
  {
    if ns == [] then [] else [ns[0].title] + TitlesOf(ns[1..])
  }

  /** The search condition: the lowercased query occurs in the lowercased title or content. */
  predicate Matches(n: Note, query: string)
    reads n
  {
    Contains(Lower(n.title), Lower(query)) || Contains(Lower(n.content), Lower(query))
  }

  /** The notes matching `query`, in list order. */
  function Matching(ns: seq<Note>, query: string): (r: seq<Note>)
    reads ns
    ensures forall i :: 0 <= i < |r| ==> r[i] in ns && Matches(r[i], query)
    ensures forall i :: 0 <= i < |ns| && Matches(ns[i], query) ==> ns[i] in r
    ensures IsSubsequence(r, ns)
  {
    if ns == [] then []
    else
      var rest := Matching(ns[1..], query);
      if Matches(ns[0], query) then
        assert ([ns[0]] + rest)[1..] == rest;
        [ns[0]] + rest
      else
        SkipOne(rest, ns);
        rest
  }

  /** The notes carrying `tag`, in list order. */
  function Tagged(ns: seq<Note>, tag: string): (r: seq<Note>)
    reads ns
    ensures forall i :: 0 <= i < |r| ==> r[i] in ns && tag in r[i].tags
    ensures forall i :: 0 <= i < |ns| && tag in ns[i].tags ==> ns[i] in r
    ensures IsSubsequence(r, ns)
  {
    if ns == [] then []
    else
      var rest := Tagged(ns[1..], tag);
      if tag in ns[0].tags then
        assert ([ns[0]] + rest)[1..] == rest;
        [ns[0]] + rest
      else
        SkipOne(rest, ns);
        rest
  }

  /**
   * The search keeps every copy of a matching note and no copy of any
   * other: with `IsSubsequence`, this fixes the result even when the
   * list holds the same note twice.
   */
  lemma {:induction false} MatchingCounts(ns: seq<Note>, query: string)
    ensures forall x :: x in ns ==>
      multiset(Matching(ns, query))[x] == if Matches(x, query) then multiset(ns)[x] else 0
  {
    if ns != [] {
      var rest := Matching(ns[1..], query);
      MatchingCounts(ns[1..], query);
      assert ns == [ns[0]] + ns[1..];
      forall x | x in ns && x !in ns[1..]
        ensures multiset(rest)[x] == 0 && multiset(ns[1..])[x] == 0
      {
        assert x !in rest;
      }
    }
  }

  /** The tag filter keeps every copy of a tagged note and no copy of any other. */
  lemma {:induction false} TaggedCounts(ns: seq<Note>, tag: string)
    ensures forall x :: x in ns ==>
      multiset(Tagged(ns, tag))[x] == if tag in x.tags then multiset(ns)[x] else 0
  {
    if ns != [] {
      var rest := Tagged(ns[1..], tag);
      TaggedCounts(ns[1..], tag);
      assert ns == [ns[0]] + ns[1..];
      forall x | x in ns && x !in ns[1..]
        ensures multiset(rest)[x] == 0 && multiset(ns[1..])[x] == 0
      {
        assert x !in rest;
      }
    }
  }

  /** The sort key of `sort_by_tag`: the note's tags, sorted, joined with commas. */
  function TagKey(n: Note): string
    reads n
  {
    Join(",", SortStrings(n.tags))
  }

  /** Each note paired with its sort key. */
  function Keyed(ns: seq<Note>): (r: seq<(string, Note)>)
    reads ns
    ensures |r| == |ns|
    ensures forall i :: 0 <= i < |ns| ==> r[i] == (TagKey(ns[i]), ns[i])
    ensures Values(r) == ns
  {
    if ns == [] then [] else [(TagKey(ns[0]), ns[0])] + Keyed(ns[1..])
  }

  /** `[str(note) for note in notes]`: one text per note, in list order. */
  function NoteStrings(ns: seq<Note>): (r: seq<string>)
    reads ns
    ensures |r| == |ns|
    ensures forall i :: 0 <= i < |ns| ==> r[i] == ns[i].ToString()
  {
    if ns == [] then [] else [ns[0].ToString()] + NoteStrings(ns[1..])
  }

  // ---------------------------------------------------------------------
  // NoteBook
  // ---------------------------------------------------------------------

  class NoteBook {
    var notes: seq<Note>

    constructor ()
      ensures notes == []
    {
      notes := [];
    }

    function Titles(): seq<string>
      reads this, notes
    {
      TitlesOf(notes)
    }

    /** `add`: appends, with no check that the title is new. */
    method Add(note: Note) returns (msg: string)
      modifies this
      ensures notes == old(notes) + [note]
      ensures msg == "Note added: " + note.title
    {
      notes := notes + [note];
      msg := "Note added: " + note.title;
    }

    /** `find`: the first note with exactly this title. */
    method Find(title: string) returns (r: Option<Note>)
      ensures r.None? <==> title !in Titles()
      ensures r.Some? ==> r.value == notes[IndexOf(Titles(), title)]
    {
      var i := 0;
      while i < |notes|
        invariant 0 <= i <= |notes|
        invariant forall j :: 0 <= j < i ==> notes[j].title != title
      {
        if notes[i].title == title {
          assert IndexOf(Titles(), title) == i;
          return Some(notes[i]);
        }
        i := i + 1;
      }
      return None;
    }

    /** `remove`: deletes the first note with this title, the others keeping their order. */
    method Remove(title: string) returns (msg: string)
      modifies this
      ensures title in old(Titles()) ==>
        var i := IndexOf(old(Titles()), title);
        notes == old(notes)[..i] + old(notes)[i + 1..] && msg == "Note '" + title + "' removed."
      ensures title !in old(Titles()) ==> notes == old(notes) && msg == "Note '" + title + "' not found."
    {
      var i := 0;
      while i < |notes|
        invariant 0 <= i <= |notes|
        invariant notes == old(notes)
        invariant forall j :: 0 <= j < i ==> notes[j].title != title
      {
        if notes[i].title == title {
          assert IndexOf(Titles(), title) == i;
          notes := notes[..i] + notes[i + 1..];
          return "Note '" + title + "' removed.";
        }
        i := i + 1;
      }
      return "Note '" + title + "' not found.";
    }

    /** `show_all`. */
    function ShowAll(): string
      reads this, notes
    {
      if notes == [] then "No notes available." else Join("\n", NoteStrings(notes))
    }

    /** `search`: case-insensitive substring search in title or content, in list order. */
    function Search(query: string): (r: seq<Note>)
      reads this, notes
      ensures forall i :: 0 <= i < |r| ==> r[i] in notes && Matches(r[i], query)
      ensures forall i :: 0 <= i < |notes| && Matches(notes[i], query) ==> notes[i] in r
      ensures IsSubsequence(r, notes)
    {
      Matching(notes, query)
    }

    /**
     * `edit`: only the first note with this title changes, and only in the
     * fields given; with no such note nothing changes.
     */
    method Edit(title: string, newTitle: Option<string>, newContent: Option<string>, newTags: Option<seq<string>>)
      returns (msg: string)
      modifies notes
      ensures notes == old(notes)
      ensures title !in old(Titles()) ==> msg == "Note '" + title + "' not found."
      ensures title !in old(Titles()) ==> forall j :: 0 <= j < |notes| ==> unchanged(notes[j])
      ensures title in old(Titles()) ==>
        var n := notes[IndexOf(old(Titles()), title)];
        && msg == "Note '" + title + "' updated."
        && n.title == (if newTitle.Some? then newTitle.value else old(n.title))
        && n.content == (if newContent.Some? then newContent.value else old(n.content))
        && n.tags == (if newTags.Some? then newTags.value else old(n.tags))
        && forall j :: 0 <= j < |notes| && notes[j] != n ==> unchanged(notes[j])
    {
      var found := Find(title);
      if found.None? {
        return "Note '" + title + "' not found.";
      }
      var n := found.value;
      if newTitle.Some? {
        n.title := newTitle.value;
      }
      if newContent.Some? {
        n.content := newContent.value;
      }
      if newTags.Some? {
        n.tags := newTags.value;
      }
      msg := "Note '" + title + "' updated.";
    }

    /** `search_by_tag`: the notes whose tag list holds exactly this tag, in list order. */
    function SearchByTag(tag: string): (r: seq<Note>)
      reads this, notes
      ensures forall i :: 0 <= i < |r| ==> r[i] in notes && tag in r[i].tags
      ensures forall i :: 0 <= i < |notes| && tag in notes[i].tags ==> notes[i] in r
      ensures IsSubsequence(r, notes)
    {
      Tagged(notes, tag)
    }

    /** `sort_by_tag`: a stable sort on the comma-joined sorted tags; the list itself is left alone. */
    function SortByTag(): seq<Note>
      reads this, notes
    {
      Values(SortByKey(Keyed(notes)))
    }
  }

  /**
   * `sort_by_tag` returns the same notes, ordered by their tag keys, and
   * notes with equal keys keep their list order.
   */
  lemma SortByTagFacts(nb: NoteBook)
    ensures |nb.SortByTag()| == |nb.notes|
    ensures multiset(nb.SortByTag()) == multiset(nb.notes)
    ensures forall i, j :: 0 <= i < j < |nb.notes| ==>
      StrLe(TagKey(nb.SortByTag()[i]), TagKey(nb.SortByTag()[j]))
    ensures forall k :: WithKey(SortByKey(Keyed(nb.notes)), k) == WithKey(Keyed(nb.notes), k)
  {
    var ks := Keyed(nb.notes);
    var sorted := SortByKey(ks);
    SortByKeySorted(ks);
    SortByKeyKeys(ks);
    var r := nb.SortByTag();
    assert r == Values(sorted);
    forall i | 0 <= i < |sorted| ensures sorted[i].0 == TagKey(sorted[i].1) {
      assert sorted[i] in ks;
    }
    forall k {
      SortByKeyStable(ks, k);
    }
  }
}
