# Daniel's Hotel: a Dafny model of the booking core

Daniel's Hotel is a Django site for booking hotel rooms. Guests filter the
room list by dates, room type, price and amenities. They book a room for a
stay, edit their bookings and cancel them until the day before check-in.
The browser scripts guide the guest through a three-step booking form
(dates, guest details, review), compute the price of a stay, show
countdowns to upcoming stays, run a slide show, and add accessibility
support (names, labels, error messages, mobile layouts).

The project models:

- the persistent entities and their string forms (`Models`). `UserStr`,
  `AmenityStr` and `RoomStr` read a single field, as the source's
  `__str__` methods do;
- the booking form's date rule (`Forms`);
- the booking ledger with its overlap test, and the three room filters
  (`Views`). The database is a `Hotel` object whose `book`, `edit` and
  `cancel` methods keep "no two bookings of one room overlap" invariant;
- the three page scripts: the booking page (`BookPage`), the site-wide
  script (`MainPage`) and the room page's template script (`HomePage`);
- the price breakdown of the `Hotel.booking` namespace (`PriceBreakdown`)
  and the slide show (`Slides`);
- the accessibility layer (`Accessibility`).

Conventions:

- Dates are whole day numbers and money is whole cents. "Today" is a
  parameter.
- A DOM element's class list is a set of class names. A slide-show dot's
  class list is the string the script edits.
- A date input holds `Option<int>`, where `None` means an empty input.
- A date GET parameter is a `Views.DateParam`: absent, empty, not in date
  form, date-shaped but naming no day, or naming a day. This is as much of
  the string as the views' date parsers tell apart.
- A view that raises an uncaught exception answers `ServerError`.
- `Text` holds the string primitives the scripts rely on:
  - `replace(/\D/g, '')`, `trim`, first-occurrence `replace`;
  - `padStart`;
  - JavaScript's string `<`;
  - `querySelector`'s first match.

## Model

| member | source | states |
|---|---|---|
| Text.Digits | static/js/book.js:87 | the digits kept are all digits and never more than the input's length |
| Text.Pad2 | staticfiles/js/main.js:85-86 | the padded day or month is at least two digits and reads back as the number, exactly two digits below 100 |
| Text.FirstIndexOf | static/js/book.js:217 | the element found is the first with that number; none is found exactly when no element has it |
| Models.RoomType.Code | rooms/models.py:57-64 | every stored room-type value fits the three-character column |
| Models.ParseRoomType | rooms/models.py:57-64 | a stored value is accepted only as the choice whose code it is |
| Models.RoomTypeCodeRoundTrip | rooms/models.py:57-64 | reading a code back gives a room type exactly when the code is that type's code |
| Models.BookingStatus.Code | rooms/models.py:123-130 | every status value is non-empty and fits the ten-character column |
| Models.ParseStatus | rooms/models.py:123-130 | a stored status is accepted only as the choice whose code it is |
| Models.StatusCodeRoundTrip | rooms/models.py:123-130 | reading a status code back gives the status exactly when the code is that status's code |
| Models.ProfileStr | rooms/models.py:34-36 | a profile is shown as its user's username followed by "'s profile" |
| Models.NewRoom | rooms/models.py:53-77 | a new room is available, sleeps two, has size 0 and no amenities, and keeps the given name, description, type and price |
| Models.RoomImageStr | rooms/models.py:96-98 | an image is shown as "Image for " followed by its room's name |
| Models.NewBooking | rooms/models.py:102-130 | a new booking is PENDING with no phone number and keeps the given user, room, guest name, email, dates and total |
| Models.BookingStr | rooms/models.py:132-135 | a booking is shown as "Booking for ", the room's name, " by " and the guest's name |
| Models.BookingStrInjective | rooms/models.py:132-135 | for one room, equal booking strings mean equal guest names |
| Forms.Clean | rooms/forms.py:31-42 | with both dates present, the data is cleaned iff check-in is before check-out and not in the past; the order error wins over the past-date error; an absent date passes; cleaned data is unchanged |
| Views.OverlapsSymmetric | rooms/views.py:136-140 | the half-open overlap test does not depend on which stay is the existing one |
| Views.HasConflict | rooms/views.py:136-141 | the overlap query finds a booking exactly when some booking of the room, other than the excluded one, overlaps the stay |
| Views.BackToBackIsFree | rooms/views.py:136-141 | a stay starting at another's check-out, or ending at another's check-in, is not a conflict |
| Views.CancelledStillBlocks | rooms/views.py:136-141 | a cancelled booking that overlaps still makes the booking view refuse the dates |
| Views.NoOverlapIsStronger | rooms/views.py:136-145 | a table with no overlaps has no overlaps among its active bookings |
| Views.AppendKeepsNoOverlap | rooms/views.py:136-148 | saving a booking that passed the overlap query keeps the table free of overlaps |
| Views.ReplaceKeepsNoOverlap | rooms/views.py:343-362 | saving an edit that passed the overlap query, which excludes the booking itself, keeps the table free of overlaps |
| Views.ResubmittingOwnDatesIsFree | rooms/views.py:343-348 | in a table without overlaps, an edit that keeps its own dates passes the overlap query |
| Views.StayPrice | rooms/views.py:130-133 | a one-night stay costs the nightly price and a zero-night stay costs nothing |
| Views.StayPriceAddsANight | rooms/views.py:130-133 | one more night adds exactly the nightly price |
| Views.SelectRoom | rooms/views.py:48-85 | when both dates are non-empty and one does not name a day, `strptime` raises and the view fails; otherwise a room is listed iff it is available, has no overlapping CONFIRMED booking when both dates name days, matches the type (when one is given non-empty) and maximum price, and has one of the chosen amenities |
| Views.SelectIgnoresUnconfirmed | rooms/views.py:70-74 | removing a booking that is not CONFIRMED never changes the room selection |
| Views.SearchRooms | rooms/views.py:253-270 | when both dates are non-empty and one does not name a day, the view fails (`parse_date` raises, or its None reaches the overlap query); otherwise a room is listed iff it is available, has no overlapping booking of any status when both dates name days, and matches the type (when one is given non-empty) and maximum price |
| Views.SearchHonoursCancelled | rooms/views.py:262-268 | with both dates naming days, the search succeeds and hides a room behind an overlapping cancelled booking |
| Views.CheckAvailability | rooms/views.py:205-228 | a GET fails iff a date parameter is missing or names no day, since `parse_date` raises on both; a GET whose dates both name days lists exactly the available rooms without an overlapping booking; anything else redirects |
| Views.Hotel.constructor | rooms/models.py:102-111 | the room table is given, the booking table is empty, and every booking refers to a room |
| Views.Hotel.BookRoom | rooms/views.py:99-185 | the error order is missing room, unavailable room, missing session dates; a booking is added iff the posted form is valid, no booking of the room overlaps and the save succeeds; it is CONFIRMED, priced per night and owned by the user; a failed mail keeps it; the table stays free of overlaps |
| Views.Hotel.EditBooking | rooms/views.py:334-376 | only the owner's booking is found; it is updated iff a valid posted form's dates overlap no other booking of the room; it gets the new dates, status and recomputed price, and nothing else changes; the table stays free of overlaps |
| Views.Hotel.CancelBooking | rooms/views.py:380-398 | only the owner's booking is found; a POST cancels it iff check-in is after tomorrow, otherwise nothing changes; the row stays and the table stays free of overlaps |
| BookPage.ValidatePhoneNumber | static/js/book.js:85-98 | a phone number is valid iff it has at least ten digits; the international-format test never decides |
| BookPage.FormatPhone | static/js/book.js:153-173 | the typed value becomes the bare digits (up to three), "(ddd) d.." (up to six) or "(ddd) ddd-dddd" from the first ten digits; a value without digits is left as it is |
| BookPage.FormatPhoneDigits | static/js/book.js:153-173 | formatting keeps exactly the first ten digits typed, in order |
| BookPage.FormatPhoneIdempotent | static/js/book.js:153-173 | formatting an already formatted number changes nothing |
| BookPage.Step1Valid | static/js/book.js:42-78 | step 1 fails iff a date is missing or check-out is not after check-in |
| BookPage.EmailMatchesPattern | static/js/book.js:118 | the left-to-right email scan accepts exactly the strings of the anchored pattern: one '@' with plain text before it, and a '.' inside the part after it |
| BookPage.NameError | static/js/book.js:107-115 | the name passes iff it is non-blank after trimming; a blank name gets the "enter your name" message |
| BookPage.EmailError | static/js/book.js:117-130 | the email passes iff its trimmed value matches the pattern; a blank one gets the "enter your email" message and any other failing one the "enter a valid email" message |
| BookPage.PhoneError | static/js/book.js:132-144 | the phone passes iff it has ten digits; a blank one gets the "enter your phone" message and any other failing one the "enter a valid phone" message |
| BookPage.TrimKeepsDigits | static/js/book.js:137 | trimming the phone number never removes a digit, so the trimmed value is judged on the digits typed |
| BookPage.Step2Valid | static/js/book.js:104-147 | step 2 passes iff the trimmed name is non-empty, the trimmed email matches and the phone has ten digits |
| BookPage.Marked | static/js/book.js:47-53 | a failing field gains "is-invalid" and keeps its "is-valid" state; a passing one loses "is-invalid" and gains "is-valid"; other classes stay |
| BookPage.MarkedTwice | static/js/book.js:298-307 | marking a field twice with the same verdict is marking it once, so the submit handler's second validation leaves the marks of the first |
| BookPage.CheckOutMarked | static/js/book.js:55-75 | the check-out input is marked invalid iff it is empty or not after check-in, marked valid whenever it is set, and keeps its other classes |
| BookPage.CheckOutMessage | static/js/book.js:55-75 | the order message wins over the missing-date message, and a passing check-out keeps its message |
| BookPage.CheckOutMarkedTwice | static/js/book.js:298-307 | validating step 1 twice over the same dates leaves the check-out classes and message as validating it once |
| BookPage.BookingWizard.constructor | static/js/book.js:324-379 | at page load the date inputs hold the served dates (the booking view fills them from the session), step 1 is current, check-in may start today and check-out tomorrow, and each validated input carries "form-control" |
| BookPage.BookingWizard.ValidateStep1 | static/js/book.js:42-78 | the result is the step-1 verdict and matches the "is-invalid" marks; each mark and message follows its check, and a check-out not after check-in is marked invalid as well as valid |
| BookPage.BookingWizard.ValidateStep2 | static/js/book.js:104-147 | the result is the step-2 verdict and matches the "is-invalid" marks; each field's classes and message follow its own check |
| BookPage.BookingWizard.GoToStep | static/js/book.js:210-232 | exactly the first step element with the number is shown and the current step becomes that number |
| BookPage.BookingWizard.UpdateSummary | static/js/book.js:178-204 | with both dates, the summary shows the nights and nights times the price; the guest name is written only when non-empty |
| BookPage.BookingWizard.Next | static/js/book.js:235-250 | the form moves iff it is on step 1 and step 1 validates, or on step 2 and step 2 validates, and then exactly the target step is shown; the validated step's fields get the marks and messages of its check and the others are untouched; the summary is refreshed exactly when the form leaves step 2; otherwise step and display are unchanged |
| BookPage.BookingWizard.Prev | static/js/book.js:253-258 | the requested step is shown without validation |
| BookPage.BookingWizard.OnCheckInChange | static/js/book.js:261-278 | check-out may start the day after check-in; an earlier check-out is moved onto it, so any chosen stay is a valid step 1 |
| BookPage.BookingWizard.AcceptTerms | static/js/book.js:348-351 | the terms box becomes checked and loses its error mark |
| BookPage.BookingWizard.ValidateForSubmit | static/js/book.js:298-307 | it returns to step 1 when step 1 fails, else to step 2 when step 2 fails, showing exactly that step; otherwise the form may go with step and display unchanged; the date fields carry step 1's marks, and the guest fields carry step 2's marks when step 1 passes and are untouched otherwise |
| BookPage.BookingWizard.Submit | static/js/book.js:286-319 | unchecked terms mark the box and change nothing else; otherwise the box is unmarked, the fields carry the marks of the validation, and the form is sent iff both steps validate, with the display unchanged, or else exactly the failing step is shown |
| MainPage.FormatDate | staticfiles/js/main.js:83-88 | the date string is the year, '-', the two-digit 1-based month, '-', the two-digit day |
| MainPage.FormatDateInjective | staticfiles/js/main.js:83-88 | different dates give different strings |
| MainPage.FormatDateFourDigitYear | staticfiles/js/main.js:83-88 | a four-digit year gives a ten-character yyyy-mm-dd string |
| MainPage.Classify | staticfiles/js/main.js:344-361 | the badge reads "N days" for two or more days ahead, "Tomorrow", "Today" or "Past due" otherwise, and its scheme is a non-empty set drawn from the five colour classes the update removes |
| MainPage.CountdownClasses | staticfiles/js/main.js:344-361 | after an update a badge has bg-primary iff more than one day is left, bg-warning and text-dark iff one, bg-success iff none, and bg-danger iff past; other classes stay |
| MainPage.CountdownTextIdentifiesDays | staticfiles/js/main.js:348-360 | equal badge texts mean equal day counts, unless both dates are past |
| MainPage.StayDates.constructor | staticfiles/js/main.js:43-121 | at page load the date inputs hold the served dates and check-in may start today, check-out tomorrow; the initial price calculation then shows a served priced stay's nights and total, and, with the nights row, shows the row and fills the summaries that exist; otherwise nothing is written |
| MainPage.StayDates.UpdatePriceCalculation | staticfiles/js/main.js:128-184 | `PriceRecalculated`: with the price panel and a stay of at least one night, it shows the nights and their total; with the nights row it then shows the row, other classes kept, and copies them to the summaries that exist, and without it the handler fails before the summaries; otherwise nothing changes |
| MainPage.StayDates.OnCheckInChange | staticfiles/js/main.js:58-73 | without check-in nothing changes; otherwise check-out may start the day after check-in, a check-out on or before check-in is moved onto it, and the price is recalculated over the new dates exactly as `PriceRecalculated` says: nights, total, row classes and summaries, all left as they were when check-out is empty |
| MainPage.MultiStepForm.ValidateStep | staticfiles/js/main.js:274-299 | a step passes iff all its required fields are filled; exactly its empty fields are marked with the "required" message; other steps' fields are untouched; a missing step is an error |
| MainPage.MultiStepForm.ShowBookingStep | staticfiles/js/main.js:250-271 | exactly the first element with the number is shown; the progress bar and, on the review step, the guest summary are set only when such an element exists |
| MainPage.MultiStepForm.Next | staticfiles/js/main.js:229-239 | the form moves iff the button's step has all its required fields filled; that step's fields get the marks and messages of the check; a move shows the target as showBookingStep does, with its progress and summary; otherwise display, progress and summary are unchanged |
| MainPage.MultiStepForm.Prev | staticfiles/js/main.js:242-247 | the requested step is shown without validation, with its progress and, on the review step, the guest summary |
| HomePage.LooseEmailMeaning | static/js/home.js:134 | the left-to-right scan accepts exactly the strings the unanchored pattern finds an address in |
| HomePage.StrictEmailIsLoose | static/js/home.js:134 | every email the booking page accepts passes the room page's looser test |
| HomePage.LooseEmailIsNotStrict | static/js/home.js:134 | "a b@c.d" passes the room page's test but not the booking page's |
| HomePage.EmailNotice | static/js/home.js:130-140 | the email passes iff the pattern finds an address; an empty one gets the "enter your email" notice and any other failing one the "enter a valid email" notice |
| HomePage.StepValid | static/js/home.js:99-145 | step 1 passes iff both dates are set, in any order; step 2 passes iff the name is non-empty and the email passes; every other step passes |
| HomePage.HomeBooking.constructor | static/js/home.js:27-40 | at page load check-in may start today and check-out tomorrow |
| HomePage.HomeBooking.UpdatePriceSummary | static/js/home.js:58-68 | `SummaryRefreshed`: with both dates, the summary shows them, their difference in nights and the price times the nights, even when the order is wrong; with a date missing it stays |
| HomePage.HomeBooking.OnCheckInChange | static/js/home.js:42-54 | without check-in nothing changes; otherwise check-out may start the day after check-in, a check-out on or before check-in is moved onto it, and the summary is refreshed over the new dates as `SummaryRefreshed` says, dates, nights and total, or kept when check-out is empty; the nights are then positive |
| HomePage.HomeBooking.ValidateStep | static/js/home.js:99-145 | the result is the step verdict and matches the invalid marks; each notice follows its check; other steps' fields are untouched |
| HomePage.HomeBooking.Navigate | static/js/home.js:76-78 | the progress bar is set for the target; the current step's first element is hidden; the target's first element is shown, or the handler breaks when it is missing |
| HomePage.HomeBooking.Next | static/js/home.js:70-86 | nothing moves unless the current step validates, and the step's marks and notices are those of its check; then the form moves as Navigate says, and arriving at step 3 writes the dates, nights, total and guest name into the summary |
| HomePage.HomeBooking.Prev | static/js/home.js:88-97 | the form moves to the requested step without validation |
| HomePage.HomeBooking.Advance | static/js/home.js:76-84 | after a passing check the form moves as Navigate says, and only an arrival at step 3 rewrites the summary with the dates, nights, total and guest name |
| HomePage.MarkOneNamed | static/js/home.js:159-166 | one pass of the submit loop changes the mark of the input it visits, to whether that input is empty, and no other named input's mark |
| HomePage.MarksAfterNamed | static/js/home.js:159-166 | after the submit loop, each of the dates, the name and the email is marked invalid iff it is required and empty, however often it is listed; one that is not required keeps its mark |
| HomePage.MarksAfterOthers | static/js/home.js:159-166 | after the submit loop, every other input is marked invalid iff it is required and empty; one that is not required keeps its mark |
| HomePage.HomeBooking.MarkInput | static/js/home.js:159-166 | one required input gains "is-invalid" when empty and loses it otherwise, as one pass of the loop says; every other input keeps its mark |
| HomePage.HomeBooking.MarkRequired | static/js/home.js:157-166 | the loop leaves the marks that going through the required inputs in document order gives, and `formValid` stays true iff no required input is empty |
| HomePage.HomeBooking.Submit | static/js/home.js:147-172 | unchecked terms mark the box and block the form; otherwise each required input, the dates, name and email included, is marked invalid iff it is empty, inputs that are not required keep their marks, and the form is sent iff no required input is empty |
| PriceBreakdown.IsoOrderIsDateOrder | static/js/scripts.js:42 | for four-digit years, string order on yyyy-mm-dd values is the calendar order, so comparing the strings compares the dates |
| PriceBreakdown.Booking.constructor | static/js/scripts.js:6-11 | the page as served: the date inputs hold the served dates, no price is shown and no handler is attached |
| PriceBreakdown.Booking.Init | static/js/scripts.js:5-49 | without the base-price element nothing happens; with both date inputs, check-in may start today and the handlers are attached |
| PriceBreakdown.Booking.UpdatePriceBreakdown | static/js/scripts.js:17-34 | `BreakdownRefreshed`: with both dates, a stay of at least one night shows the row with the nights and their total; any other stay hides the row and shows the base price, the nights text left alone; with a date missing nothing changes; other classes stay |
| PriceBreakdown.Booking.OnCheckInChange | static/js/scripts.js:40-46 | without attached handlers nothing changes; otherwise check-out may start on the check-in day and an earlier check-out is moved onto it, so check-in ≤ check-out, and the breakdown is refreshed over the new dates as `BreakdownRefreshed` says |
| PriceBreakdown.Booking.OnCheckOutChange | static/js/scripts.js:48 | without attached handlers nothing changes; otherwise the breakdown is refreshed as `BreakdownRefreshed` says: nights, total, the row's classes, or nothing when a date is missing |
| Slides.StripTrailingActive | staticfiles/js/script.js:31-33 | removing the first " active" from a dot that has one, at the end, gives back the class without it |
| Slides.StripDot | staticfiles/js/script.js:31-33 | after the strip, a dot in shape has no " active" at all |
| Slides.AddActive | staticfiles/js/script.js:35-38 | appending " active" to a plain dot keeps it in shape and marks it |
| Slides.Wrap | staticfiles/js/script.js:24-25 | past the last slide the index restarts at 1, before the first it goes to the last, and an index in range stands; with at least one slide it lands in 1..count |
| Slides.Carousel.constructor | staticfiles/js/script.js:3 | the show starts at slide 1 with the served slides and dots |
| Slides.Carousel.HideSlides | staticfiles/js/script.js:27-29 | every slide is hidden |
| Slides.Carousel.StripDots | staticfiles/js/script.js:31-33 | every dot loses its first " active" and then has none |
| Slides.Carousel.ShowCurrent | staticfiles/js/script.js:35-38 | only the current slide is shown and only its dot gains " active"; the step fails iff that dot is missing |
| Slides.Carousel.ShowSlides | staticfiles/js/script.js:20-39 | the index wraps; exactly the current slide is shown; exactly its dot is active; every dot is in shape; the call fails iff the current slide has no dot |
| Slides.Carousel.PlusSlides | staticfiles/js/script.js:12-14 | the index becomes the wrapped sum, within 1..count; exactly that slide is shown; every dot loses its first " active" and that slide's dot gains one, so exactly it is active; the call fails iff the current slide has no dot |
| Slides.Carousel.CurrentSlide | staticfiles/js/script.js:16-18 | the index becomes the wrapped target, within 1..count; exactly that slide is shown; every dot loses its first " active" and that slide's dot gains one, so exactly it is active; the call fails iff the current slide has no dot |
| Accessibility.CheckHeadingHierarchy | static/js/accessibility.js:71-84 | the warnings come in document order, at exactly the headings more than one level deeper than the one before |
| Accessibility.NoWarningMeansNoGap | static/js/accessibility.js:71-84 | on a page without warnings, the i-th heading is at most at level i+1 |
| Accessibility.FieldLabel | static/js/accessibility.js:401-411 | without a label, the name is the first non-empty of placeholder, name and id, else "This field"; a label's text is trimmed at both ends |
| Accessibility.LabelDropsRequiredMarker | static/js/accessibility.js:405-406 | a label "Name *" names the field by the trimmed text without its first '*' |
| Accessibility.LabelWithoutMarker | static/js/accessibility.js:406 | a label without '*' is only trimmed |
| Accessibility.ErrorMessage | static/js/accessibility.js:372-396 | the message is never empty and a custom message always wins |
| Accessibility.ErrorMessageFollowsRank | static/js/accessibility.js:378-395 | without a custom message, the sentence is that of the set flag first in the chain; with no flag set, the browser's message or "… is invalid." |
| Accessibility.FindWithPrefix | static/js/accessibility.js:563 | it returns the first class starting with the prefix, or nothing iff none does |
| Accessibility.DashesToSpaces | static/js/accessibility.js:565 | every '-' becomes a space and nothing else changes |
| Accessibility.GivenLabel | static/js/accessibility.js:558-571 | a button with text or a label is left alone; an icon names it after its first "fa-" class; no icon gives "Button" |
| Accessibility.IconNameExample | static/js/accessibility.js:561-566 | an icon "fas fa-sign-in" names the button "sign in button" |
| Accessibility.IconWithoutPrefixGetsNoLabel | static/js/accessibility.js:561-564 | an icon whose only class merely contains "fa-" leaves the button without a name and without a warning |
| Accessibility.Accordion.constructor | static/js/accessibility.js:205-238 | only the first step starts open, and only when it has a title |
| Accessibility.Accordion.Click | static/js/accessibility.js:240-259 | a click opens only the clicked step, or closes everything when it was open; at most one step is ever open |
| Accessibility.CardHeader.Setup | static/js/accessibility.js:626-645 | on a small screen with a card body, aria-expanded is the opposite of "collapsed" and a collapsed card hides its body; otherwise nothing happens |
| Accessibility.CardHeader.Click | static/js/accessibility.js:648-660 | a click flips aria-expanded, the body's display and the "collapsed" class together, keeping them consistent |
| Accessibility.ResponsiveTable.LabelRow | static/js/accessibility.js:537-542 | each cell with a header gets the trimmed header text; later cells keep their label |
| Accessibility.ResponsiveTable.MakeResponsive | static/js/accessibility.js:525-546 | a table that is already a card table, or is inside a responsive one, is left alone; any other gets the card class and every row is labelled |

## Left out

- Floating point: prices are whole cents. `parseFloat` on the price, NaN,
  and the `toFixed(2)` / `$` formatting of totals are not modelled.
- Time: dates are day numbers. `new Date`, time zones, daylight saving,
  and the `Math.round`/`Math.ceil` of millisecond differences are assumed
  to give whole days.
- Long dates: the `toLocaleDateString` text of the summaries is not
  modelled. The booking page's and the site-wide script's date summaries
  are left out.
- Progress bars: the booking page's progress width and its
  `aria-valuenow` are left out. The other two scripts keep the progress
  as a number.
- Outside calls: scrolling, focus, Bootstrap modals and tooltips, the
  price slider, tab and filter persistence (localStorage), modal data
  loading (`fetch`), the room-details JSON views, dark mode, skip links
  and screen-reader announcements.
- Site-wide submit handler: the submit handler (staticfiles/js/main.js:197-216)
  is left out. Its `checkValidity` and `:invalid` lookups are browser
  state, and the `showBookingStep` it calls is local to
  `setupMultiStepForm`, so it cannot be reached from there.
- Site-wide date inputs: the script finds its date inputs by id in one
  place and by name in another. The model treats them as one pair of
  inputs.
- Site-wide price breakdown: `static/js/scripts.js` uses the nights row,
  the number-of-nights and the total elements without checking that they
  exist. The model assumes all three are present, so the error a missing
  one raises is not modelled.
- Room page template: `static/js/home.js` is a Django template. The room
  price and input ids are assumed rendered, and every element it looks up
  is assumed present.
- `Views.Hotel.BookRoom`: the form's field checks (email format,
  lengths) are the input flag `fieldsValid`. The session dates only gate
  the request, as in the source.
- `Views.Hotel.EditBooking`: the edit form's verdict, dates and status
  are parameters. `BookingEditForm` is imported by rooms/views.py but is
  not part of this model: rooms/forms.py does not define it.
- Query strings: which strings `parse_date` and `strptime` read as which
  day is not modelled; `Views.DateParam` starts from that reading. A
  string only one of the two parsers accepts is not modelled. The maximum
  price and amenity ids are taken as numbers: a non-numeric value, which
  makes the query raise, is not modelled. The session writes of
  `select_room` are not modelled.
- Concurrency: two requests that book the same dates at once can both
  pass the overlap query. The model runs requests one at a time.
- Query semantics: a room is excluded when any one of its bookings
  matches all three conditions of `exclude`. Django's multi-valued
  `exclude` semantics are assumed to mean this.
- Data bounds: the ten-digit limit on money (`Models.FitsMoney`) is not
  enforced by the views.
- Other Django code: login, registration, admin, storage backends,
  management commands, migrations and settings.
- `Slides.Carousel.constructor`: requires every dot to hold " active" at
  most once, at the end. Because the script strips only the first
  occurrence, other shapes would keep a stale " active".
- `MainPage.StayDates.constructor`: when the initial price calculation
  fails for want of the nights row, the page-load handler stops too, and
  the setups after it (form validation, countdowns, modals) never run.
  The model keeps those setups separate and does not capture this.
- `HomePage.HomeBooking.Navigate`: requires the current step number to be
  on the page, because the button sits inside that step element.
- `Accessibility.Accordion.constructor`: models small screens only. On a
  large screen the script leaves the steps as they are. Removing
  `d-none` from the steps and moving their content are not modelled.
- `Accessibility.CardHeader.Setup`: takes the screen-size query as a
  parameter and runs once per header.
- `Accessibility.ErrorMessage`: the chain of flags is stated in
  `Accessibility.ErrorMessageFollowsRank`. The browser's own
  `validationMessage` is an input.
