/** The contact collection as a value: the records, the name lookups and the
    list edits that the store's handlers perform on a freshly loaded list. */
module Contacts {
  import opened Calendar

  datatype Option<T> = None | Some(value: T)

  /** One contact. The two interaction fields are absent until the contact is
      first updated. `name` is the only identity the application uses. */
  datatype Contact = Contact(
    name: string,
    birthdate: Date,
    dateMet: Date,
    sparks: string,
    howWeMet: string,
    lastInteractionDate: Option<Date>,
    lastInteractionDetails: Option<string>)

  /** A record as the add-contact form builds it: no interaction yet. */
  function NewContact(name: string, birthdate: Date, dateMet: Date, sparks: string, howWeMet: string): (c: Contact)
    ensures c.name == name && c.birthdate == birthdate && c.dateMet == dateMet
    ensures c.sparks == sparks && c.howWeMet == howWeMet
    ensures c.lastInteractionDate.None? && c.lastInteractionDetails.None?
  {
    Contact(name, birthdate, dateMet, sparks, howWeMet, None, None)
  }

  /** The collection a handler works on, given what storage returned: nothing
      stored reads as the empty list; serialisation is taken as the identity. */
  function Load(stored: Option<seq<Contact>>): (contacts: seq<Contact>)
    ensures stored.None? ==> contacts == []
    ensures stored.Some? ==> contacts == stored.value
  {
    match stored
    case None => []
    case Some(s) => s
  }

  /** The list with `c` added at the end; no check that its name is new. */
  function Appended(s: seq<Contact>, c: Contact): (r: seq<Contact>)
    ensures |r| == |s| + 1
    ensures r[..|s|] == s && r[|s|] == c
  {
    s + [c]
  }

  /** `findIndex` on the name: the lowest index whose record has this name, or -1. */
  function IndexOfName(s: seq<Contact>, name: string): (i: int)
    ensures -1 <= i < |s|
    ensures i >= 0 ==> s[i].name == name && forall j :: 0 <= j < i ==> s[j].name != name
    ensures i == -1 <==> forall j :: 0 <= j < |s| ==> s[j].name != name
  {
    if s == [] then -1
    else if s[0].name == name then 0
    else
      var k := IndexOfName(s[1..], name);
      if k == -1 then -1 else k + 1
  }

  /** `find` on the name: some record with this name exactly when one exists. */
  function FindByName(s: seq<Contact>, name: string): (r: Option<Contact>)
    ensures r.Some? <==> exists j :: 0 <= j < |s| && s[j].name == name
    ensures r.Some? ==> r.value.name == name && r.value in s
  {
    if s == [] then None
    else if s[0].name == name then Some(s[0])
    else FindByName(s[1..], name)
  }

  /** `find` and `findIndex` agree: find returns the record at the first match. */
  lemma {:induction false} FindIsFirstMatch(s: seq<Contact>, name: string)
    ensures FindByName(s, name) == if IndexOfName(s, name) == -1 then None else Some(s[IndexOfName(s, name)])
  {
    if s != [] && s[0].name != name {
      FindIsFirstMatch(s[1..], name);
    }
  }

  /** The array after `splice(start, 1)`: a negative start counts back from the
      end, a start past either end is clamped, and at most one element goes. */
  function SpliceOne<T>(s: seq<T>, start: int): (r: seq<T>)
    ensures 0 <= start < |s| ==> r == s[..start] + s[start + 1..]
    ensures -|s| <= start < 0 ==> r == s[..|s| + start] + s[|s| + start + 1..]
    ensures start < -|s| && s != [] ==> r == s[1..]
    ensures start >= |s| || s == [] ==> r == s
  {
    var len := |s|;
    var actualStart := if start < 0 then (if len + start < 0 then 0 else len + start)
                       else (if start < len then start else len);
    var deleteCount := if len - actualStart < 1 then len - actualStart else 1;
    s[..actualStart] + s[actualStart + deleteCount..]
  }

  /** Deleting by position in range removes exactly that element: one shorter,
      the prefix kept, the rest shifted down by one in order. */
  lemma SpliceRemovesAt<T>(s: seq<T>, i: int)
    requires 0 <= i < |s|
    ensures |SpliceOne(s, i)| == |s| - 1
    ensures forall j :: 0 <= j < i ==> SpliceOne(s, i)[j] == s[j]
    ensures forall j :: i <= j < |s| - 1 ==> SpliceOne(s, i)[j] == s[j + 1]
    ensures multiset(s) == multiset(SpliceOne(s, i)) + multiset{s[i]}
  {
    var r := SpliceOne(s, i);
    assert s == s[..i] + [s[i]] + s[i + 1..];
    assert r == s[..i] + s[i + 1..];
  }

  /** Delete-by-name: the first record with this name removed, or the list
      unchanged when no record has it. */
  function DeletedByName(s: seq<Contact>, name: string): (r: seq<Contact>)
    ensures IndexOfName(s, name) == -1 ==> r == s
    ensures IndexOfName(s, name) != -1 ==>
      |r| == |s| - 1 && r[..IndexOfName(s, name)] == s[..IndexOfName(s, name)] &&
      r[IndexOfName(s, name)..] == s[IndexOfName(s, name) + 1..]
  {
    var index := IndexOfName(s, name);
    if index != -1 then SpliceOne(s, index) else s
  }

  /** The merge `{...c, lastInteractionDate, lastInteractionDetails}`: every
      field of c kept except the two interaction fields, which take the new values. */
  function Merge(c: Contact, date: Date, details: string): (m: Contact)
    ensures m.name == c.name && m.birthdate == c.birthdate && m.dateMet == c.dateMet
    ensures m.sparks == c.sparks && m.howWeMet == c.howWeMet
    ensures m.lastInteractionDate == Some(date) && m.lastInteractionDetails == Some(details)
  {
    c.(lastInteractionDate := Some(date), lastInteractionDetails := Some(details))
  }

  /** Update-by-name: only the first record with this name is replaced by its
      merge; the length and every other index are unchanged; no match, no change. */
  function UpdatedByName(s: seq<Contact>, name: string, date: Date, details: string): (r: seq<Contact>)
    ensures |r| == |s|
    ensures IndexOfName(s, name) == -1 ==> r == s
    ensures IndexOfName(s, name) != -1 ==> r[IndexOfName(s, name)] == Merge(s[IndexOfName(s, name)], date, details)
    ensures forall j :: 0 <= j < |s| && j != IndexOfName(s, name) ==> r[j] == s[j]
  {
    var contactIndex := IndexOfName(s, name);
    if contactIndex != -1 then s[contactIndex := Merge(s[contactIndex], date, details)] else s
  }

  /** Same names at every index give the same first match. */
  lemma {:induction false} SameNamesSameIndex(s: seq<Contact>, t: seq<Contact>, name: string)
    requires |s| == |t|
    requires forall j :: 0 <= j < |s| ==> s[j].name == t[j].name
    ensures IndexOfName(s, name) == IndexOfName(t, name)
  {
    if s != [] {
      SameNamesSameIndex(s[1..], t[1..], name);
    }
  }

  /** Looking the name up after an update finds the merged record: the new
      interaction fields with all other fields as they were. */
  lemma FindAfterUpdate(s: seq<Contact>, name: string, date: Date, details: string)
    requires IndexOfName(s, name) != -1
    ensures FindByName(s, name).Some?
    ensures FindByName(UpdatedByName(s, name, date, details), name) == Some(Merge(FindByName(s, name).value, date, details))
  {
    var r := UpdatedByName(s, name, date, details);
    SameNamesSameIndex(s, r, name);
    FindIsFirstMatch(s, name);
    FindIsFirstMatch(r, name);
  }

  /** Saving the same interaction twice is the same as saving it once. */
  lemma UpdateIdempotent(s: seq<Contact>, name: string, date: Date, details: string)
    ensures UpdatedByName(UpdatedByName(s, name, date, details), name, date, details) == UpdatedByName(s, name, date, details)
  {
    var r := UpdatedByName(s, name, date, details);
    SameNamesSameIndex(s, r, name);
  }

  /** How many records carry this name. */
  function CountNamed(s: seq<Contact>, name: string): (n: nat)
    ensures n <= |s|
    ensures n == 0 <==> IndexOfName(s, name) == -1
  {
    if s == [] then 0
    else CountNamed(s[1..], name) + (if s[0].name == name then 1 else 0)
  }

  lemma {:induction false} CountNamedConcat(a: seq<Contact>, b: seq<Contact>, name: string)
    ensures CountNamed(a + b, name) == CountNamed(a, name) + CountNamed(b, name)
  {
    if a == [] {
      assert a + b == b;
    } else {
      assert (a + b)[1..] == a[1..] + b;
      CountNamedConcat(a[1..], b, name);
    }
  }

  /** Appending adds one record under its own name and leaves the first match
      of a name already present where it was: a later duplicate is never found. */
  lemma {:induction false} AppendKeepsFirstMatch(s: seq<Contact>, c: Contact, name: string)
    ensures CountNamed(Appended(s, c), name) == CountNamed(s, name) + (if c.name == name then 1 else 0)
    ensures IndexOfName(Appended(s, c), name) ==
      if IndexOfName(s, name) != -1 then IndexOfName(s, name)
      else if c.name == name then |s| else -1
  {
    CountNamedConcat(s, [c], name);
    if s != [] {
      assert Appended(s, c)[1..] == Appended(s[1..], c);
      AppendKeepsFirstMatch(s[1..], c, name);
    }
  }

  /** Splitting the list around index i: the name count is that of the two
      sides plus i's own record. */
  lemma CountNamedAround(s: seq<Contact>, i: nat, name: string)
    requires i < |s|
    ensures CountNamed(s, name) ==
      CountNamed(s[..i], name) + (if s[i].name == name then 1 else 0) + CountNamed(s[i + 1..], name)
  {
    assert s == s[..i] + ([s[i]] + s[i + 1..]);
    CountNamedConcat(s[..i], [s[i]] + s[i + 1..], name);
    CountNamedConcat([s[i]], s[i + 1..], name);
  }

  /** Delete-by-name, when the name is present, removes exactly one record of
      that name and no record of any other: the multiset loses just the first match. */
  lemma DeleteByNameRemovesOne(s: seq<Contact>, name: string)
    requires IndexOfName(s, name) != -1
    ensures CountNamed(DeletedByName(s, name), name) == CountNamed(s, name) - 1
    ensures multiset(s) == multiset(DeletedByName(s, name)) + multiset{s[IndexOfName(s, name)]}
  {
    var i := IndexOfName(s, name);
    SpliceRemovesAt(s, i);
    CountNamedAround(s, i, name);
    CountNamedConcat(s[..i], s[i + 1..], name);
  }
}
