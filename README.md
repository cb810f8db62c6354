# CollegeRolodex contact store, modelled in Dafny

CollegeRolodex is a small React Native contact book. Its logic is two things:

- the **contact store**: one ordered list of `Contact` records kept under the storage key
  `"contacts"`. The screens' event handlers load the whole list, change it and write it
  back whole. They append a new contact, look a contact up by name, merge a "last
  interaction" into the first record with a name, and delete either by list position
  (swipe) or by name (details screen);
- **`calculateAge`**: completed years between a birthdate and today.

The model has three modules:

- `Calendar` (`calendar.dfy`) holds dates as `(year, month, day)` triples, `CalculateAge`
  with "today" as a parameter, and an independent count of completed birthdays that
  `CalculateAge` is proved to equal.
- `Contacts` (`contacts.dfy`) holds the `Contact` record and the list operations as
  functions on `seq<Contact>`. Lookups use first-match semantics on `name`: the source
  never checks that names are unique. The module also holds `SpliceOne`, which models
  JavaScript's `splice(start, 1)` with its clamping of negative and out-of-range starts.
- `ContactStore` (`contact_store.dfy`) holds two classes. `ContactArray` is the JavaScript
  array that a handler changes in place with `push`, `splice` and element assignment.
  `ContactStorage` is the key-value store at its one key. Each screen handler is a method
  over these two classes, and its `ensures` ties the new stored value to the functions of
  `Contacts`.

Points where the source's behaviour is easy to misread:
- Update merges only `lastInteractionDate` and `lastInteractionDetails` into the record.
  No other field can be patched.
- Delete and update of a missing name report nothing. They simply write nothing.
- Swipe delete splices the list the screen is showing, not a fresh load. Only in-range
  row keys reach the splice: the confirmation text reads `contacts[rowKey].name`, which
  throws for a key with no element. `SpliceOne` still follows JavaScript's clamping for
  other starts, but only to keep the model total.
- The `index !== -1` guard of delete-by-name matters: `splice(-1, 1)` would drop the
  last contact.

## Model

| member | source | states |
|---|---|---|
| `Calendar.CalculateAge` | App.js:280-289 | age is the year difference, less one exactly when (month, day) of today is lexicographically before the birthday's; hence one of two values, exact on the birthday, never negative once born |
| `Calendar.AgeCountsCompletedBirthdays` | App.js:283-288 | once born, the age equals the number of anniversaries reached by today, over any horizon covering today's year |
| `Calendar.EarlierBirthdaysPassed` | App.js:283 | every anniversary in a year before today's year counts as reached |
| `Calendar.AgeMonotone` | App.js:283-288 | a later reference date never gives a smaller age |
| `Calendar.AgeExample` | App.js:283-286 | born 2000-06-15: 23 the day before the 24th birthday, 24 on it |
| `Calendar.BirthdaysPassed` | App.js:283-286 | the reference count of birthdays 1..n reached never exceeds n |
| `Contacts.NewContact` | App.js:87 | a new record carries the form's five fields and no interaction fields |
| `Contacts.Load` | App.js:43-44 | an absent stored value reads as the empty list; a stored list reads as itself |
| `Contacts.Appended` | App.js:89-90 | one longer, the old list as an unchanged prefix, the new contact last |
| `Contacts.IndexOfName` | App.js:203 | the lowest index whose name equals the key, and -1 exactly when no record has it |
| `Contacts.FindByName` | App.js:179 | a record exactly when some record has the name, and it has that name and is in the list |
| `Contacts.FindIsFirstMatch` | App.js:179 | `find` returns the record at the `findIndex` position, and nothing when that is -1 |
| `Contacts.SpliceOne` | App.js:157 | `splice(start, 1)`: an in-range start removes that element; a negative one counts back from the end; a start past the end removes nothing |
| `Contacts.SpliceRemovesAt` | App.js:156-157 | deleting a position in range: length drops by one, the prefix is kept, the rest shift down in order, and the multiset loses just that element |
| `Contacts.DeletedByName` | App.js:203-205 | with a match, the list without the first match (prefix kept, suffix shifted); without one, the list unchanged |
| `Contacts.CountNamedAround` | App.js:203-205 | the name count of a list is that of the records before index i, i's own record, and those after |
| `Contacts.DeleteByNameRemovesOne` | App.js:203-205 | when the name is present, delete by name removes exactly one record of that name and loses no other record |
| `Contacts.Merge` | App.js:234-238 | the merged record keeps every field but the two interaction fields, which take the new values |
| `Contacts.UpdatedByName` | App.js:231-239 | length kept; with a match only the first-match index changes, to the merge of the old record; without one, nothing changes |
| `Contacts.SameNamesSameIndex` | App.js:231 | lists with equal names at every index have the same first match |
| `Contacts.FindAfterUpdate` | App.js:179 | after an update, looking the name up finds the old record merged with the new interaction |
| `Contacts.UpdateIdempotent` | App.js:231-239 | applying the same update twice equals applying it once |
| `Contacts.CountNamed` | App.js:203 | the number of records with a name is zero exactly when `findIndex` gives -1 |
| `Contacts.CountNamedConcat` | App.js:203 | the name count of a concatenation is the sum of the counts |
| `Contacts.AppendKeepsFirstMatch` | App.js:87-91 | appending counts one more record of the new name and keeps the first match of a name already present, so a later duplicate is never found |
| `ContactStore.ContactArray.constructor` | App.js:156 | the copy `[...contacts]` (or a parsed list) holds exactly the given records |
| `ContactStore.ContactArray.Push` | App.js:90 | `push` appends in place |
| `ContactStore.ContactArray.Splice` | App.js:205 | `splice(start, 1)` in place |
| `ContactStore.ContactArray.Set` | App.js:239 | element assignment replaces one index in place |
| `ContactStore.ContactStorage.constructor` | App.js:43 | before any write, the key holds nothing |
| `ContactStore.ContactStorage.GetItem` | App.js:43 | reading returns the stored collection, or nothing |
| `ContactStore.ContactStorage.SetItem` | App.js:91 | writing stores the whole collection |
| `ContactStore.FetchContacts` | App.js:42-46 | the screens see the stored list, the empty list when nothing is stored |
| `ContactStore.SaveContact` | App.js:86-93 | the stored list becomes the previously loaded list with a new record of the five form values, and no interaction fields, appended |
| `ContactStore.SwipeDelete` | App.js:155-160 | a fresh copy of the shown list with the row spliced out is stored and returned; the shown list is unaltered |
| `ContactStore.DeleteByName` | App.js:201-207 | with a match the stored list loses its first match; without one the store is left exactly as it was |
| `ContactStore.HandleUpdate` | App.js:228-243 | with a match the stored list gets the first match merged; without one the store is left exactly as it was |
| `ContactStore.FetchUpdatedContact` | App.js:176-183 | the looked-up contact is the stored record at the first match of the name, or nothing (the source then discards it) |

## Left out

- Screens, hooks, rendering, navigation, themes and styles (App.js:14-37, 59-77, 95-109, 132-154, 161-168, 189-200, 208-221, 246-278, 291-325): these are user interface, not logic.
- Storage I/O: `AsyncStorage.getItem` and `setItem` are asynchronous calls into the platform. Here they are the synchronous methods of `ContactStorage`, and they never fail.
- JSON serialisation is taken as the identity on lists. A stored empty string also reads as the empty list in the source; that string cannot come from `JSON.stringify`, so it is not modelled. The parse failure on a corrupt stored value is not modelled either.
- Dates: JavaScript `Date` parsing, time zones, and the clock read `new Date()` are not modelled. Dates are integer triples, and "today" is a parameter. A 29 February birthday is reached on 1 March in a non-leap year, as the lexicographic comparison gives.
- Number width: JavaScript numbers are doubles. Years and indices stay far below 2^53, so unbounded integers are used.
- `ContactStore.SwipeDelete`: the row key is taken as an integer position. The source dereferences `contacts[rowKey]` in the confirmation text before the delete runs, so a key with no element throws and never reaches the splice. The model has no such failure: it accepts every integer and applies `SpliceOne`, whose clamping only keeps it total.
- `ContactStore.FetchUpdatedContact`: the source computes this lookup and discards it (the `if` at App.js:180-182 has an empty body), so the details screen keeps showing the contact it was opened with.
- Lost updates between screens: each handler does an unsynchronised read-modify-write of the whole list. This is concurrency, and the source has nothing to verify for it.
- The screens' local `contacts` state (`setContacts`), the `Alert` confirmation, `console` logging and the `gradientColors` palette are not modelled.
