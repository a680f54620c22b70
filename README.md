# Women Safety App: contacts, alert and ride-details core

This project models the decision logic of a React Native app for women's
safety, and proves properties of it in Dafny. The app has two screens:

- **Ride details.** The user types the driver's name, vehicle number and
  contact. The app validates them and saves them as three key/value
  entries in the device's persistent storage.
- **Contacts.** The user picks emergency contacts from the device's
  address book. One button then sends each contact an SMS with the driver
  details and a map link to the current position.

An Android native module reads the address book. It drops every row whose
name and phone, joined into one string, give the same string as an earlier
row's. Rows that differ can therefore be dropped too.

The model has these modules:

- `Seqs` and `Text`: the JavaScript string and array operations the screens
  use. These are `Array.prototype.filter`, `String.prototype.includes`,
  `toLowerCase`, `trim`, `replace(/\D/g, '')`, `join` and a matching
  `split`.
- `Platform`: the key/value store (`AsyncStorage`) as a class holding a map,
  plus its keys and the alert dialog value.
- `ContactLists`: the pure list logic of the contacts screen. This covers
  the repair of the stored selection, the selection toggle and the name
  search.
- `AlertPayload`: the recipient numbers, the alert message template and the
  `sms:` URL.
- `ContactsScreen`: the screen's state (`selectedContacts`, `contacts`) as a
  class whose methods are the screen's handlers. `sendLocation` is a method
  that returns the sequence of effects it performs.
- `ContactsModule`: the native `getContacts` loop, as an imperative method
  over the cursor rows and a set of seen keys.
- `RideDetails`: the ride-details screen (`driver`, `storedDriver`) as a
  class, with its validation, its storage writes and its per-field edits.

## Model

| member | source | states |
|---|---|---|
| `Text.ToLower` | src/screens/contacts-screen/index.js:139 | lower-casing keeps the length and maps each character on its own, so A-Z become a-z and nothing else changes |
| `Text.IncludesIff` | src/screens/contacts-screen/index.js:139 | `includes(q)` holds exactly when `q` occurs at some position of the string |
| `Text.IncludesEmpty` | src/screens/contacts-screen/index.js:139 | every string includes the empty query |
| `Text.StripNonDigits` | src/screens/contacts-screen/index.js:94 | removing non-digits gives a result that is all digits and no longer than its input |
| `Text.StripNonDigitsSpec` | src/screens/contacts-screen/index.js:94 | the stripped number is a subsequence of the input and has exactly the input's digits, each as many times as in the input |
| `Text.StripIsFilter` | src/screens/contacts-screen/index.js:94 | stripping is the same as filtering the characters on `IsDigit` |
| `Text.StripAllDigits` | src/screens/contacts-screen/index.js:94 | a string of digits only is left unchanged |
| `Text.StripAppend` | src/screens/contacts-screen/index.js:94 | stripping distributes over concatenation |
| `Text.StripNoDigits` | src/screens/contacts-screen/index.js:94-95 | a string without digits strips to the empty string |
| `Text.StripIdempotent` | src/screens/contacts-screen/index.js:94 | stripping twice is the same as stripping once |
| `Text.TrimStart` | src/screens/ride-details/index.js:29 | the result is a suffix of the input; everything cut off is white space; the result does not start with white space |
| `Text.TrimEnd` | src/screens/ride-details/index.js:29 | the result is a prefix of the input; everything cut off is white space; the result does not end with white space |
| `Text.BlankIff` | src/screens/ride-details/index.js:29 | `trim()` gives the empty (falsy) string exactly when every character is ECMAScript white space or a line terminator |
| `Text.Split` | src/screens/contacts-screen/index.js:100 | splitting always yields at least one part |
| `Text.SplitJoin` | src/screens/contacts-screen/index.js:100 | joining a non-empty list of pieces that do not contain the separator, then splitting on it, gives back the pieces |
| `Text.CutAtFirst` | src/screens/contacts-screen/index.js:100 | for `a + [c] + b` with no `c` in `a`, the text before the first `c` is `a` and the text after it is `b` |
| `Seqs.FilterSpec` | src/screens/contacts-screen/index.js:74 | `filter` keeps a subsequence, and each element's count is its input count when the predicate holds and zero otherwise |
| `ContactLists.FindPhone` | src/screens/contacts-screen/index.js:37 | `findIndex` by phone returns the least index with that phone, or -1 when there is none |
| `ContactLists.KeepFirstsFacts` | src/screens/contacts-screen/index.js:35-38 | from index `i` on, the filter keeps a subsequence made only of first occurrences of their phones, with no repeated phone, and keeps every first occurrence at or after `i` |
| `ContactLists.DedupByPhoneSpec` | src/screens/contacts-screen/index.js:35-38 | the repaired selection has distinct phones, keeps the order of the stored data, keeps the first entry for each phone, and has the same set of phones as the stored data |
| `ContactLists.DedupOfUnique` | src/screens/contacts-screen/index.js:35-38 | a stored list whose phones are already distinct is loaded unchanged |
| `ContactLists.DedupIdempotent` | src/screens/contacts-screen/index.js:35-38 | repairing a repaired list changes nothing |
| `ContactLists.RemovePhoneSpec` | src/screens/contacts-screen/index.js:74 | removing a phone keeps every other entry, in order and with its count, and drops every entry with that phone |
| `ContactLists.TogglePresent` | src/screens/contacts-screen/index.js:72-74 | toggling a contact whose phone is selected removes all entries with that phone and keeps the rest in order, so the list gets shorter |
| `ContactLists.ToggleKeepsUnique` | src/screens/contacts-screen/index.js:70-77 | toggling keeps the selection free of repeated phones |
| `ContactLists.ToggleTwiceAbsent` | src/screens/contacts-screen/index.js:70-77 | a contact whose phone is not selected is appended, and toggling it again restores the previous selection |
| `ContactLists.ToggleTwicePresent` | src/screens/contacts-screen/index.js:70-77 | toggling twice a contact whose phone is selected gives the list without that phone, followed by the contact |
| `ContactLists.ToggleFlipsSelection` | src/screens/contacts-screen/index.js:70-77 | a toggle flips whether the contact's phone is selected and leaves whether any other phone is selected unchanged |
| `ContactLists.ToggleTwiceReorders` | src/screens/contacts-screen/index.js:70-77 | an example where toggling twice does not restore the list: `[a, b]` becomes `[b, a]` |
| `ContactLists.FilterByNameSpec` | src/screens/contacts-screen/index.js:138-140 | the search keeps, in order and with their counts, exactly the contacts whose lower-cased name includes the lower-cased query |
| `ContactLists.FilterByNameEmpty` | src/screens/contacts-screen/index.js:138-140 | an empty query shows the whole list |
| `ContactLists.FilterByNameExample` | src/screens/contacts-screen/index.js:182-184 | the query "al" picks Alice and Salim and drops Bob, case-insensitively |
| `AlertPayload.RecipientsSpec` | src/screens/contacts-screen/index.js:93-95 | each recipient is a non-empty string of digits; the recipients follow the selection's order; there are no more of them than selected contacts; each non-empty normalised number appears as often as among the normalised phones, so duplicates are kept |
| `AlertPayload.RecipientsEmptyIff` | src/screens/contacts-screen/index.js:93-96 | there are no recipients exactly when every selected phone has no digit |
| `AlertPayload.DuplicateNumbersKept` | src/screens/contacts-screen/index.js:93-95 | two contacts whose phones normalise to the same non-empty number, even if written differently, give that number twice |
| `AlertPayload.NoDigitsNoRecipients` | src/screens/contacts-screen/index.js:93-97 | phones "abc" and "" give no recipient |
| `AlertPayload.AlertMessageFields` | src/screens/contacts-screen/index.js:92 | the message starts with the alert head, the driver name, the contact label and the contact; the vehicle label, the vehicle and the location label come right after; it ends with the map link `https://maps.google.com/?q=<lat>,<lon>`; its length is the fixed template length plus the lengths of the five fields |
| `AlertPayload.JoinDigits` | src/screens/contacts-screen/index.js:100 | joining all-digit numbers with commas gives a string of digits and commas only, so it contains no `?` |
| `AlertPayload.SmsUrlParts` | src/screens/contacts-screen/index.js:100-102 | the URL starts with `sms:`; the part before the first `?`, split on commas, is exactly the recipient list; the rest is `body=` plus the encoded message |
| `ContactsScreen.SelectionStore.constructor` | src/screens/contacts-screen/index.js:26-27 | both lists start empty |
| `ContactsScreen.SelectionStore.LoadSelected` | src/screens/contacts-screen/index.js:31-40 | when something is stored, the selection becomes its phone-deduplicated form; otherwise it stays; the device list is untouched |
| `ContactsScreen.SelectionStore.FetchContacts` | src/screens/contacts-screen/index.js:45-60 | if either permission is refused, the permission dialog is shown and nothing changes; otherwise a successful fetch replaces the device contacts and a failed one leaves them |
| `ContactsScreen.SelectionStore.ToggleSelect` | src/screens/contacts-screen/index.js:70-77 | the selection becomes the toggled list and keeps its phones distinct; the tapped contact's checkbox flips, and every contact with another phone keeps its checkbox |
| `ContactsScreen.SelectionStore.IsSelected` | src/screens/contacts-screen/index.js:113 | a row shows as checked exactly when some selected contact has its phone; `ToggleSelect` proves how a tap changes it |
| `ContactsScreen.SelectionStore.ShownSelected` | src/screens/contacts-screen/index.js:138-140 | the main list is the name search applied to the selection, whose meaning `FilterByNameSpec` gives |
| `ContactsScreen.SelectionStore.ShownContacts` | src/screens/contacts-screen/index.js:182-184 | the picker list is the name search applied to the device contacts |
| `ContactsScreen.SelectionStore.SendLocation` | src/screens/contacts-screen/index.js:79-110 | an empty selection only opens the picker. Otherwise the three driver entries are read and the position is requested with high accuracy, a 20000 ms timeout and a 1000 ms maximum age. A position error is shown as its message. With no recipient the "No valid phone numbers found!" dialog is shown. Otherwise the `sms:` URL with the recipients and the composed message is opened, followed by "SMS app not available." when no app takes it. A URL is opened only when there is a recipient |
| `ContactsScreen.SentUrlNamesRecipients` | src/screens/contacts-screen/index.js:93-102 | the URL a send opens names exactly the recipients, in order, and carries the encoded message |
| `ContactsModule.FindKey` | android/app/src/main/java/com/womensafetyapp/ContactsModule.java:65-66 | the least index of a row with a given key, or -1 |
| `ContactsModule.GetContacts` | android/app/src/main/java/com/womensafetyapp/ContactsModule.java:57-76 | the loop over the cursor, with its set of seen keys, returns the deduplicated row list |
| `ContactsModule.DedupRowsSpec` | android/app/src/main/java/com/womensafetyapp/ContactsModule.java:64-73 | the result keeps the cursor order, has distinct keys, has the same set of keys as the input, and keeps exactly the first row for each key |
| `ContactsModule.KeyCollision` | android/app/src/main/java/com/womensafetyapp/ContactsModule.java:65-66 | two rows whose name and phone concatenate to the same string count as duplicates, so the second is dropped even if its name and phone differ |
| `ContactsModule.CollisionExamples` | android/app/src/main/java/com/womensafetyapp/ContactsModule.java:65 | ("a", "bc") and ("ab", "c") collide, and so do a NULL name and the name "null" |
| `Platform.SetAll` | src/screens/ride-details/index.js:36-40 | after a list of pairs is written, the keys are the old keys plus the written ones; a written key holds the value of the last pair naming it; unwritten keys keep their values |
| `Platform.SetAllThree` | src/screens/ride-details/index.js:36-40 | writing three pairs with distinct keys is the same as three map updates |
| `Platform.KeyValueStore.GetItem` | src/screens/contacts-screen/index.js:85-87 | a read gives the stored value for a present key and null for a missing one; `MultiSet` proves what a read returns after a write |
| `Platform.KeyValueStore.MultiSet` | src/screens/ride-details/index.js:36-40 | the store's entries become the old entries with the pairs written in order; afterwards a read of a written key gives the last value written to it, and a read of any other key gives what it gave before |
| `RideDetails.SaveErrorSpec` | src/screens/ride-details/index.js:29-34 | saving fails on the name exactly when it is blank. It fails on the vehicle when the name is not blank and the vehicle is. It fails on the contact when the name and the vehicle are not blank and the contact is. It succeeds exactly when none of the three fields is blank |
| `RideDetails.SaveThenLoad` | src/screens/ride-details/index.js:19-41 | a save writes the three values under their three keys and leaves every other key alone; when the driver passes validation, loading those entries back gives that driver as the stored driver |
| `RideDetails.LoadedDriver` | src/screens/ride-details/index.js:24 | a stored driver is shown exactly when the stored name is present and non-empty |
| `RideDetails.UpdateFieldSpec` | src/screens/ride-details/index.js:62-66 | editing field `i` sets that field to the text and leaves the other two unchanged |
| `RideDetails.FieldOrder` | src/screens/ride-details/index.js:54-66 | input 0 edits the name, input 1 the vehicle and input 2 the contact, and each leaves the other two fields as they were |
| `RideDetails.RideDetailsScreen.constructor` | src/screens/ride-details/index.js:16-17 | the form starts empty and no stored driver is shown |
| `RideDetails.RideDetailsScreen.LoadStoredDriver` | src/screens/ride-details/index.js:19-26 | the stored driver is set from the three entries when the stored name is non-empty, and is left as it was otherwise |
| `RideDetails.RideDetailsScreen.EditField` | src/screens/ride-details/index.js:62-66 | the form becomes the per-index update of the driver; storage and the stored driver are untouched |
| `RideDetails.RideDetailsScreen.SaveDriver` | src/screens/ride-details/index.js:28-47 | a blank field gives that field's error dialog and changes nothing. Otherwise the three entries are written. A successful write shows "Driver details saved!" and makes the form the stored driver. A failed write shows "Failed to save driver details" and leaves the storage and the stored driver unchanged |

## Left out

- Persistence of the selection: the effect that writes `selectedContacts` to storage on every change (src/screens/contacts-screen/index.js:66-68). It is a side effect of the UI framework. The JSON encoding it uses is not modelled either: `LoadSelected` takes the already parsed stored list, or none when the entry is missing or empty. A malformed stored value, which makes `JSON.parse` throw, is not modelled; in the code that leaves the selection unchanged.
- Asynchrony and ordering: all handlers are modelled as running to completion one at a time. Interleavings of the awaited calls, React's batching of state updates and stale closures are not modelled.
- The permission prompts (src/scripts/permissions.js): their results are boolean parameters of `FetchContacts`. `Linking.openSettings` behind the dialog button is not modelled.
- The position service: its outcome is the parameter `fix`. Latitude and longitude are the strings the template prints, so the number formatting of JavaScript is not modelled.
- `encodeURIComponent`: it is taken as the function parameter `encode`, so the proofs hold for any encoding.
- Whether a messaging app takes the URL: the boolean `smsAvailable`. It is treated as known when the URL is opened, although the code learns it later.
- `ContactLists.NameMatches`: `toLowerCase` is modelled for ASCII letters only. Unicode case mapping, including mappings that change the length, is not modelled.
- `SendLocation`: the `console.log` of the selection is omitted.
- `SaveDriver`: `Keyboard.dismiss` is omitted. The storage write's failure is the boolean `writeSucceeds`, and a failed `multiSet` is modelled as writing nothing.
- The user interface: rendering, the modal's visibility (except as the effect `ShowContactsModal`), `keyExtractor`, styles and the `CustomButton` component.
- Contacts without a name or phone: in JavaScript these are `null`, and `c.name.toLowerCase()` would throw on them. The screen model uses strings for both. The native module's rows keep NULL as an option.
- Photo URIs: `getAllInfoContacts` in the native module and the conversion of its rows into JavaScript objects are not modelled. The native module's cursor query, the sort order the database applies, `Cursor` handling, the `Promise` and the exception path are not modelled either; the model starts from the rows in cursor order.

Behaviour of the code worth noting:

- Phone numbers normalising to the same digits are sent twice; the code does not deduplicate recipients (`AlertPayload.DuplicateNumbersKept`).
- Toggling a contact twice gives back the selection when its phone was not selected. When it was, the result is the selection without that phone, followed by the contact. That moves the contact to the end unless it was already last (`ContactLists.ToggleTwicePresent`, `ContactLists.ToggleTwiceReorders`).
- All three driver fields must be non-blank to save, and they are checked in the order name, vehicle, contact (`RideDetails.SaveErrorSpec`).
- The permission dialog appears when either the contacts or the location permission is refused (`ContactsScreen.SelectionStore.FetchContacts`).
