# Style-stitch booking pages, modelled in Dafny

The repository is the front end of a tailoring shop. Customers browse a catalog of garment
designs, book a design by entering their body measurements, and follow their bookings. An
administrator logs in, drafts new designs and picks booking statuses. There is no back end:
"submitting" only logs the record and shows a notice.

This project models the logic of the four pages, one module each, plus two helper modules.

- `BookDesign` (`book_design.dfy`). The booking form. It binds a design by id and seeds the
  measurement map with one empty entry per measurement name of the design. Field handlers
  edit the draft one field at a time. Submission checks name and phone first, then every
  measurement. It reports only the first failure. On success it builds a booking request
  with status "Pending". The page's state (`design`, `unit`, `formData`) is the class
  `BookingForm`. Seeding, checking and record building are functions.
- `Designs` (`designs.dfy`). The catalog search. It is a stable filter that keeps a design
  when the lower-cased query occurs in the design's lower-cased name or id. The module also
  holds the result-count noun, the initial query read from the URL parameter and the
  "Show All Designs" reset.
- `Admin` (`admin.dfy`). The admin page. The class `AdminPage` holds the login flag, the
  login form and the new-design draft. Its list of measurement names is edited by pure
  functions: append a blank row, remove at an index, replace at an index. A trace model of
  the editing actions shows that the offered actions never empty that list.
- `Bookings` (`bookings.dfy`). The bookings list. It maps a status to its badge classes
  through its lower-cased form, with gray as the default. It shows the empty-state message
  exactly when there are no bookings. It shows the special-requirements line exactly when
  that field is non-empty.
- `Text` (`text.dfy`). `toLowerCase` restricted to ASCII, and `includes`. `includes` is
  proved equivalent to "occurs at some position".
- `Wrappers` (`wrappers.dfy`). `Option` and `Result`.

Behaviours of the code that a reader might not expect, which the model keeps as written:

- Validation rejects only the empty string. The code tests `!value` and does not trim, so a
  name, phone or measurement of spaces passes (`BookDesign.WhitespaceIsNotMissing`). A
  trimming check would reject whitespace; this one does not.
- The unit value stored for centimetres is `"cm"`; the label shown is "Centimeters".
- The status selector's handler only reports the choice. It neither checks the value nor
  updates a booking (`Admin.AdminPage.UpdateBookingStatus`), so a status outside the three
  options is not rejected and no status is ever stored.
- A design's measurement names are not checked for being non-empty or unique. Seeding
  yields exactly the set of names, so duplicates collapse into one key (`BookDesign.Seed`).
- When the route's id is unknown, the binding effect changes nothing. A design bound
  earlier therefore stays bound. From the mounted state, "Design not found" is shown
  (`BookDesign.BookingForm.LoadDesign`).
- The `if (search)` guard on the URL parameter makes no difference: an empty parameter and
  a missing parameter both give the empty query (`Designs.InitialQuery`).

## Model

| member | source | states |
|---|---|---|
| `Text.Lower` | src/pages/Designs.tsx:50-51 | lower-casing keeps the length and lower-cases each character (ASCII letters only) |
| `Text.LowerIdempotent` | src/pages/Designs.tsx:50-51 | lower-casing an already lower-cased string changes nothing |
| `Text.IncludesToSubstring` | src/pages/Designs.tsx:50-51 | when `includes` holds, the query occurs at some start position |
| `Text.SubstringToIncludes` | src/pages/Designs.tsx:50-51 | when the query occurs at a start position, `includes` holds |
| `Text.IncludesIsSubstring` | src/pages/Designs.tsx:50-51 | `includes` holds iff the query occurs at some start position, in both directions |
| `Text.IncludesEmpty` | src/pages/Designs.tsx:50-51 | every string includes the empty string |
| `Designs.Filter` | src/pages/Designs.tsx:49-52 | the result is no longer than the catalog, and each kept design is in the catalog and matches |
| `Designs.MatchesIsSubstring` | src/pages/Designs.tsx:50-51 | a design matches iff the lower-cased query is a substring of its lower-cased name or of its lower-cased id |
| `Designs.FilterIsSubsequence` | src/pages/Designs.tsx:49-52 | the result is a subsequence of the catalog, so catalog order is kept |
| `Designs.FilterCount` | src/pages/Designs.tsx:49-52 | each matching design appears as often as in the catalog, and a non-matching one never appears |
| `Designs.FilterAllMatch` | src/pages/Designs.tsx:49-52 | when every design matches, the whole catalog is returned unchanged |
| `Designs.FilterEmptyQuery` | src/pages/Designs.tsx:36-37 | the empty query returns the whole catalog in order |
| `Designs.FilterIdempotent` | src/pages/Designs.tsx:49-52 | filtering the result again with the same query returns it unchanged |
| `Designs.FilterCaseInsensitive` | src/pages/Designs.tsx:50-51 | two queries with the same lower-case form give the same result |
| `Designs.FilterLowerQuery` | src/pages/Designs.tsx:50-51 | searching for the lower-cased query gives the same result as the query itself |
| `Designs.CountNoun` | src/pages/Designs.tsx:87 | the noun is "design" exactly when one design is shown, and "designs" otherwise |
| `Designs.InitialQuery` | src/pages/Designs.tsx:39-46 | a missing URL parameter gives the empty query; a present one is the query, an empty one included |
| `Designs.OpenPage` | src/pages/Designs.tsx:35-46 | the page holds the whole catalog and the query `InitialQuery` derives from the URL parameter: without one it shows the whole catalog, with one it shows the catalog filtered by it |
| `Designs.SearchPage.Type` | src/pages/Designs.tsx:75 | typing replaces the query and leaves the catalog untouched |
| `Designs.SearchPage.ShowAll` | src/pages/Designs.tsx:137 | the reset clears the query and leaves the catalog untouched |
| `Designs.ShowAllShowsCatalog` | src/pages/Designs.tsx:132-143 | after the reset the whole catalog is shown; with a non-empty catalog the no-results block is gone |
| `Designs.NoResultsIffNoMatch` | src/pages/Designs.tsx:132-134 | the no-results block shows iff no catalog design matches the query |
| `Designs.SearchByIdPrefix` | src/pages/Designs.tsx:11-24 | the query "rn00" finds both sample designs through their ids, in catalog order |
| `BookDesign.ParseUnit` | src/pages/BookDesign.tsx:191-198 | a selector value is a unit iff it is "inches" or "cm" |
| `BookDesign.UnitRoundTrip` | src/pages/BookDesign.tsx:196-197 | the stored value of each unit reads back as that unit |
| `BookDesign.UnitValueOfParsed` | src/pages/BookDesign.tsx:196-197 | every value that reads back as a unit is that unit's stored value |
| `BookDesign.Seed` | src/pages/BookDesign.tsx:48-51 | the seeded map's keys are exactly the design's measurement names, and every value is "" |
| `BookDesign.Lookup` | src/pages/BookDesign.tsx:43-44 | a design is found iff the id is present, non-empty and in the catalog, and it is the catalog's entry |
| `BookDesign.MessagesDiffer` | src/pages/BookDesign.tsx:72-79 | the two refusals raise different alert texts |
| `BookDesign.Check` | src/pages/BookDesign.tsx:70-81 | the "required fields" error iff name or phone is ""; the "measurements" error iff both are set and some value is ""; acceptance iff name, phone and every value are non-empty |
| `BookDesign.Submit` | src/pages/BookDesign.tsx:67-91 | a refusal carries the first failing check; an accepted record carries the design's id and name, every form field, the unit's value, the date and status "Pending" |
| `BookDesign.RequiredFieldsReportedFirst` | src/pages/BookDesign.tsx:71-74 | with name or phone empty, the "required fields" error is reported whatever the measurements hold |
| `BookDesign.WhitespaceIsNotMissing` | src/pages/BookDesign.tsx:71-81 | values made of spaces pass: there is no trimming |
| `BookDesign.NoMeasurementsPass` | src/pages/BookDesign.tsx:77-81 | an empty measurement map passes the measurement check vacuously |
| `BookDesign.SeededFormNeedsMeasurements` | src/pages/BookDesign.tsx:48-81 | a freshly seeded form is refused for its measurements iff the design has at least one |
| `BookDesign.FilledFormIsAccepted` | src/pages/BookDesign.tsx:77-91 | a form with exactly the design's keys, all filled, is accepted as "Pending" for that design with exactly those keys |
| `BookDesign.FillAll` | src/pages/BookDesign.tsx:57-64 | calling the measurement handler once per name adds exactly those names to the keys |
| `BookDesign.FillAllLeavesNoneEmpty` | src/pages/BookDesign.tsx:57-64 | filling with non-empty values leaves no empty value |
| `BookDesign.SeedThenFillIsSubmittable` | src/pages/BookDesign.tsx:48-81 | seeding and then filling every measurement makes the draft pass, with the design's names as keys |
| `BookDesign.BookingForm.constructor` | src/pages/BookDesign.tsx:33-40 | the page mounts with no design ("Design not found"), unit inches and empty fields |
| `BookDesign.BookingForm.LoadDesign` | src/pages/BookDesign.tsx:42-55 | a known id binds the design and reseeds only the measurements; an unknown id changes nothing |
| `BookDesign.BookingForm.SetCustomerName` | src/pages/BookDesign.tsx:165 | only the customer name changes |
| `BookDesign.BookingForm.SetPhone` | src/pages/BookDesign.tsx:176 | only the phone changes |
| `BookDesign.BookingForm.SetExtraRequirements` | src/pages/BookDesign.tsx:230 | only the extra requirements change |
| `BookDesign.BookingForm.ChangeMeasurement` | src/pages/BookDesign.tsx:57-64 | key m gets the value, every other key and field is unchanged, and for a design's own name the key set stays the design's |
| `BookDesign.BookingForm.SelectUnit` | src/pages/BookDesign.tsx:191 | only the unit changes |
| `BookDesign.BookingForm.HandleSubmit` | src/pages/BookDesign.tsx:67-96 | the outcome is `Submit` on the current state; an accepted record is "Pending" for the bound design, in inches or cm, and while the form's keys match the design its measurement keys are the design's names |
| `Admin.AppendBlank` | src/pages/Admin.tsx:45-50 | one "" is added at the end and every earlier row is kept |
| `Admin.RemoveAt` | src/pages/Admin.tsx:52-57 | exactly the row at the index is deleted and the rest stay in order; an out-of-range index changes nothing |
| `Admin.ReplaceAt` | src/pages/Admin.tsx:59-64 | only the row at the index is replaced; an out-of-range index changes nothing |
| `Admin.RemoveUndoesAppend` | src/pages/Admin.tsx:45-57 | removing the row just appended restores the list |
| `Admin.ReplaceBackUndoes` | src/pages/Admin.tsx:59-64 | writing back the old value undoes a replacement |
| `Admin.RemoveAtLength` | src/pages/Admin.tsx:52-57 | removal shortens the list by one iff the index is inside it |
| `Admin.OfferedKeepsARow` | src/pages/Admin.tsx:211-220 | an action the form offers never leaves the list without a row |
| `Admin.RunKeepsARow` | src/pages/Admin.tsx:203-222 | from at least one row, any sequence of offered actions leaves at least one row |
| `Admin.EditorNeverEmpties` | src/pages/Admin.tsx:18 | from the initial `[""]`, the offered actions never empty the list |
| `Admin.StatusOptionsAreColoured` | src/pages/Admin.tsx:261-263 | the selector's three values are exactly the three non-gray cases of the bookings page's `StatusColor` (yellow, blue, green) |
| `Admin.AdminPage.constructor` | src/pages/Admin.tsx:13-20 | the page starts logged out, with an empty login form and the empty draft |
| `Admin.AdminPage.SetUsername` | src/pages/Admin.tsx:102 | only the username changes |
| `Admin.AdminPage.SetPassword` | src/pages/Admin.tsx:112 | only the password changes |
| `Admin.AdminPage.Login` | src/pages/Admin.tsx:35-43 | logs in iff both fields equal the configured pair, and then the dashboard is shown; otherwise the flag is unchanged |
| `Admin.AdminPage.Logout` | src/pages/Admin.tsx:132 | the flag becomes false, so the login form is shown again, and nothing else changes |
| `Admin.AdminPage.SetName` | src/pages/Admin.tsx:156 | only the draft's name changes |
| `Admin.AdminPage.SetCategory` | src/pages/Admin.tsx:166 | only the draft's category changes |
| `Admin.AdminPage.AddMeasurement` | src/pages/Admin.tsx:45-50 | one blank row is appended and the earlier rows are unchanged |
| `Admin.AdminPage.RemoveMeasurement` | src/pages/Admin.tsx:52-57 | the row at the index is removed; while the remove button is offered, a row remains |
| `Admin.AdminPage.ChangeMeasurement` | src/pages/Admin.tsx:59-64 | the row at the index is replaced and the row count is unchanged |
| `Admin.AdminPage.SubmitDesign` | src/pages/Admin.tsx:73-79 | the draft is reset to name "", category "", rows `[""]` and no image |
| `Admin.AdminPage.UpdateBookingStatus` | src/pages/Admin.tsx:81-85 | no state changes |
| `Bookings.StatusColor` | src/pages/Bookings.tsx:46-57 | yellow iff the lower-cased status is "pending", blue iff "in progress", green iff "completed", gray iff none of these |
| `Bookings.StatusColorOfLower` | src/pages/Bookings.tsx:47 | the colour depends only on the lower-cased status |
| `Bookings.PendingIsYellow` | src/pages/Bookings.tsx:48-49 | "Pending" is yellow |
| `Bookings.InProgressIsBlue` | src/pages/Bookings.tsx:50-51 | "In Progress" is blue |
| `Bookings.CompletedIsGreen` | src/pages/Bookings.tsx:52-53 | "Completed" is green |
| `Bookings.ShoutedPendingIsYellow` | src/pages/Bookings.tsx:47-49 | "PENDING" is yellow too |
| `Bookings.CardFor` | src/pages/Bookings.tsx:77-138 | the card shows the booking's id, design name and status, badge classes from the status, and the requirements line iff they are non-empty |
| `Bookings.Cards` | src/pages/Bookings.tsx:76-139 | one card per booking, in list order |
| `Bookings.Render` | src/pages/Bookings.tsx:67-141 | the empty-state message iff there are no bookings; otherwise exactly the cards `Cards` builds, one per booking in order, each with its colour and requirements line |

## Left out

- Rendering, routing and navigation: JSX markup, `useNavigate`, `Link` and `useParams`. The
  route's design id is a parameter of `LoadDesign`.
- Browser side effects: `alert`, `console.log` and `window.location`. The URL's `search`
  parameter is taken as a parameter of `InitialQuery` and `OpenPage`, so `URLSearchParams`
  is not modelled.
- Clock and date formatting: `new Date().toISOString()` becomes the `bookingDate`
  parameter. `toLocaleDateString` is not modelled.
- Image upload: `handleImageUpload` and the `File` object are browser file I/O. The draft
  keeps an optional image, which only the reset sets, to "no image".
- Credentials: the literal demo pair is not reproduced. `Login` takes the configured pair
  as a parameter.
- Text.Lower: JavaScript's `toLowerCase` is full Unicode case mapping; the model lower-cases
  ASCII letters only.
- Home page: its only logic is a trimmed non-empty check before a redirect, which is
  navigation.
- Mock data arrays are fixtures, not behaviour. The first two catalog designs are kept to
  show that searching "rn00" over them finds both through their ids. Searching "saree" over
  the same two designs is not proved here.
- React's re-render scheduling: the filter is recomputed directly from the catalog and the
  query (`SearchPage.Shown`), not stored in a second state variable.
- Bookings.CardFor: the customer name (src/pages/Bookings.tsx:95), the design id
  (src/pages/Bookings.tsx:107), the measurement rows under each card and the formatted date
  are shown but are plain rendering, so they are not part of the card model.
- BookDesign.Lookup: the catalog is a map holding only its own entries. In the code it is a
  plain object, so an id naming an inherited property (`constructor`, `toString`,
  `__proto__`) is truthy at src/pages/BookDesign.tsx:43 and the effect then crashes on
  `reduce` at line 48. The model treats such ids as unknown.
- BookDesign.BookingForm.LoadDesign: for the same reason, an id naming an inherited object
  property, which crashes the code's effect, leaves the state unchanged in the model.
- Browser form validation in the markup is not modelled: the `required` attributes
  (src/pages/BookDesign.tsx:167, 178, 215; src/pages/Admin.tsx:158, 168) and the numeric
  input (src/pages/BookDesign.tsx:210). `BookDesign.Check` and
  `BookDesign.WhitespaceIsNotMissing` describe the submit handler alone, and
  `Admin.Offered` treats the upload button as always offered.
