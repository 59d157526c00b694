# Josh Tours car rental: a Dafny model of the booking and fleet records

Josh Tours is a car-rental web application. Customers browse the fleet, send a booking request with their identity documents and leave testimonials. Administrators do four things:

- confirm or reject requests;
- enter manual bookings;
- keep rental agreements;
- manage the cars and moderate testimonials.

Every record lives in a document store with five collections: cars, booking requests, rental agreements, testimonials and user profiles.

This project models those records and every operation that reads or changes them. It also models the validators, list updates and small lookup rules that the pages around them apply.

## Form of the model

**The record store.**
- `Records.RecordStore` is a class with one `map` field per collection. `connected` stands for "the database handle exists".
- The server actions are methods that `modify` the store. Each states the error results of the failures it models and the exact new content of every collection.

**Dates.**
- A calendar day is a `Calendar.Date` (year, month, day), valid in years 0 to 9999.
- `DayNumber` gives each valid day its ordinal, and `Succ` gives the next day.
- `FormatDate` and `ParseIsoDate` are the `yyyy-MM-dd` formatter and parser. They are proved to be inverse to each other.
- A car's `bookedDates` stays a list of such strings, as stored. `DateLedger.ArrayUnion` is the store's array-union update: items not yet present are appended in order, and nothing already there moves. `DateLedger.BlockRange` is what blocking a pickup–return range does to that list.

**Pages.**
- A page whose handlers change React state is a class whose fields are that state. This covers the admin booking list, My Bookings, the testimonial form, the testimonial and car panels, the currency provider and the login form.
- The handlers are methods whose ensures give the new state in terms of a pure function (`SetStatusById`, `Without`).

**Validators.**
- The zod schemas are functions returning the list of `Forms.FieldError`s. Each is proved empty exactly when every rule holds.
- A schema's object-level `refine` runs, as in zod, unless a field was aborted: a missing value or one of the wrong kind (no car picked, a date missing or not a day) aborts it, while a string that is too short or too long only adds its own issue. So the date-order error can appear beside other field errors.

**The outside world.**
- A back-end failure is a parameter where the member names one: a boolean (`writeFails`, `queryFails`), the message of a rejection (`writeError`, `uploadError`, `storageError`, `deleteError`), or `BookingActions.CreationFault`. The rejections that no parameter stands for are listed under "## Left out".
- Server timestamps and `Date.now()` are parameters (`now`, `clock`); every record the source stamps with `serverTimestamp()` has its `createdAt` or `lastUpdated` field.
- File storage is a function parameter `upload` from storage path to download URL.
- Fresh document ids are parameters that the caller guarantees are unused.

## Model

| member | source | states |
|---|---|---|
| Calendar.EachDayOfInterval | src/lib/bookingActions.ts:107-109 | the inclusive range has return − pickup + 1 days, consecutive and all valid |
| Calendar.EachDayMembership | src/lib/bookingActions.ts:109 | a day is in the range exactly when it is valid and lies between pickup and return |
| Calendar.ParseFormat | src/lib/bookingActions.ts:107-110 | parsing a formatted day gives that day back |
| Calendar.FormatParse | src/lib/bookingActions.ts:107-110 | formatting a parsed `yyyy-MM-dd` string gives the same string back |
| Calendar.FormatInjective | src/lib/bookingActions.ts:110 | two different days never get the same date string |
| DateLedger.ArrayUnion | src/lib/bookingActions.ts:113-115 | the old list is a prefix of the result; the result holds exactly the old and the new items; every appended item is new |
| DateLedger.ArrayUnionNoDuplicates | src/lib/bookingActions.ts:114 | a duplicate-free list stays duplicate-free after the union |
| DateLedger.ArrayUnionIdempotent | src/lib/bookingActions.ts:114 | adding the same items twice equals adding them once |
| DateLedger.ArrayUnionFreshCount | src/lib/bookingActions.ts:114 | distinct items that are all new grow the list by exactly their number |
| DateLedger.DateStringsFacts | src/lib/bookingActions.ts:109-110 | the range's strings number return − pickup + 1, have no duplicates, are all `yyyy-MM-dd` days inside the range, and include every day of the range |
| DateLedger.BlockRangeSucceeds | src/lib/bookingActions.ts:107-110 | blocking succeeds exactly when both dates parse and pickup is not after return |
| DateLedger.BlockRangeCovers | src/lib/bookingActions.ts:107-114 | after blocking, every day from pickup to return inclusive is booked |
| DateLedger.BlockRangeAddsOnlyRange | src/lib/bookingActions.ts:109-114 | every previously booked date is kept in place, and every added date is a new day inside the range |
| DateLedger.BlockRangeIdempotent | src/lib/bookingActions.ts:113-115 | blocking the same range twice gives the same list as blocking it once |
| DateLedger.BlockRangeNoDuplicates | src/lib/bookingActions.ts:113-115 | blocking never introduces a duplicate date |
| DateLedger.BlockRangeFreshCount | src/lib/bookingActions.ts:109-114 | on a car with none of the range's days booked, exactly return − pickup + 1 dates are added |
| BookingActions.DocumentUrlsKeys | src/lib/bookingActions.ts:43-48 | over any list of fields, a key is present exactly when it is `<field>Url` for an uploaded field, holding that file's URL |
| BookingActions.UploadBookingDocuments | src/lib/bookingActions.ts:33-51 | the loop over the sixteen fields builds exactly the URL map `UploadedDocumentKeys` describes |
| BookingActions.UploadedDocumentKeys | src/lib/bookingActions.ts:34-49 | `<field>Url` is a key exactly for those of the 16 listed fields whose file is present with size > 0; it holds the URL of `booking-documents/<bookingId>/<field>-<fileName>`; there are no other keys |
| BookingActions.CarsAfterBlock | src/lib/bookingActions.ts:103-116 | blocking touches only the named car; the set of cars is unchanged |
| BookingActions.CarsAfterBlockIdempotent | src/lib/bookingActions.ts:113-115 | blocking the same range on the same car twice gives the same fleet as blocking it once |
| BookingActions.CarsAfterBlockKeepsDates | src/lib/bookingActions.ts:113-115 | the car's earlier booked dates stay, in order, at the head of its list |
| BookingActions.BlockCarDates | src/lib/bookingActions.ts:103-116 | with no database the call does nothing; otherwise the fleet becomes `CarsAfterBlock`; a bad interval or a missing car is an error; no other collection changes |
| BookingActions.NewBooking | src/lib/bookingActions.ts:126-132 | the stored request has its document id, the uploaded URLs, the server's creation time and status `pending` unless a status was supplied; car, user and dates are copied |
| BookingActions.StoreRequest | src/lib/bookingActions.ts:135-147 | after the insert, the id write and the optional URL write, only the new record is added |
| BookingActions.CreateBookingRequest | src/lib/bookingActions.ts:118-172 | no database gives "Database not initialized" and no change; a rejected insert gives "Failed to create booking request: <message>" and no change; a rejected id, upload or URL write gives that error with the record stored without URLs and no dates blocked; otherwise the request is stored with its URLs, the car's dates are blocked exactly when the status is `confirmed`, and it fails exactly when that blocking fails |
| BookingActions.CancelBookingRequest | src/lib/bookingActions.ts:222-245 | a missing id gives "Booking request not found." and a failed write "Failed to cancel the booking request."; success only sets that record's status to `canceled`; the record is kept and car dates are not released |
| BookingActions.UpdateBookingStatus | src/lib/bookingActions.ts:284-312 | an existing record gets the new status; `confirmed` blocks the stored booking's range on its car and succeeds exactly when that range is an interval and the car exists; `canceled` or a missing booking succeeds and leaves every car untouched |
| BookingActions.PendingIds | src/lib/bookingActions.ts:322 | the ids counted are exactly the requests whose status is `pending` |
| BookingActions.GetPendingBookingCount | src/lib/bookingActions.ts:315-329 | the count of pending requests, or 0 with no database or a failed query; never more than the number of requests |
| BookingActions.PendingCountAfterCreate | src/lib/bookingActions.ts:126 | storing a new pending request raises the pending count by one |
| BookingActions.PendingCountAfterCancel | src/lib/bookingActions.ts:236-238 | cancelling a pending request lowers the pending count by one |
| ManualBooking.DateFieldErrors | src/app/admin/manual-booking/page.tsx:57-58 | a date field passes exactly when a valid day was picked |
| ManualBooking.ContactErrors | src/app/admin/manual-booking/page.tsx:52-55 | no errors exactly when a car is picked and the name, email and phone rules hold; a missing car gives zod's "Required"; each failed rule gives its own message |
| ManualBooking.FieldErrors | src/app/admin/manual-booking/page.tsx:51-60 | no errors exactly when every field rule holds; never the date-order error |
| ManualBooking.Validate | src/app/admin/manual-booking/page.tsx:51-65 | no errors exactly when every field rule holds and return is strictly after pickup; the order error, on `returnDate`, is present exactly when a car and two valid days were picked and return is not after pickup, whatever the other fields; each failed field rule gives its own message |
| ManualBooking.FindCar | src/app/admin/manual-booking/page.tsx:118 | the first car with the selected id, or none exactly when no car has it |
| ManualBooking.ManualBookingData | src/app/admin/manual-booking/page.tsx:124-142 | status `confirmed`, both residencies `local`, `N/A` for both ID numbers and the guarantor's name and phone, the selected car's name, both days as `yyyy-MM-dd` |
| ManualBooking.ManualBookingDates | src/app/admin/manual-booking/page.tsx:137-138 | the stored date strings parse back to the picked days |
| ManualBooking.ManualBookingBlocksItsRange | src/app/admin/manual-booking/page.tsx:137-144 | a valid manual booking's strings form an interval, and creating it books every day from pickup to return on the car |
| ManualBooking.OnSubmit | src/app/admin/manual-booking/page.tsx:113-152 | nothing is attempted without a logged-in user or with a car id not in the loaded fleet; otherwise the creation's result is the submission's: no database or a rejected insert stores nothing, a rejected later write stores the booking and blocks nothing, and without a fault the confirmed booking with no document URLs is stored and its dates are blocked; the other collections never change |
| BookingLists.StatusVariant | src/app/admin/bookings/BookingListClient.tsx:112-123 | ignoring case: `confirmed` gives default, `pending` secondary, `canceled` destructive, anything else outline |
| BookingLists.StatusVariantOfStatus | src/app/my-bookings/page.tsx:105-116 | the three stored statuses get default, secondary and destructive |
| BookingLists.StatusVariantIgnoresCase | src/app/admin/bookings/BookingListClient.tsx:113 | an upper-cased status gets the same badge |
| BookingLists.SearchBookings | src/app/admin/bookings/BookingListClient.tsx:71-75 | every booking kept matches the term |
| BookingLists.SearchSpec | src/app/admin/billing/BookingListClient.tsx:36-40 | a booking is kept exactly when the lower-cased term occurs in its lower-cased customer name or id; the result is a subsequence of the input |
| BookingLists.SearchEmptyTerm | src/app/admin/billing/BookingListClient.tsx:36-40 | an empty search term keeps every booking |
| BookingLists.SetStatusById | src/app/admin/bookings/BookingListClient.tsx:94-96 | the bookings with the matching id get the new status; all others are unchanged; the length is kept |
| BookingLists.SetStatusByIdFacts | src/app/my-bookings/page.tsx:82-86 | the ids and their order are kept; the update is idempotent; status is the only field that changes |
| AdminBookings.DecisionsOffered | src/app/admin/bookings/BookingListClient.tsx:247-255 | Confirm and Reject are offered exactly for pending bookings |
| AdminBookings.DecidedOffersNothing | src/app/admin/bookings/BookingListClient.tsx:247-255 | once a decision is applied, no further decision is offered |
| AdminBookings.AdminBookingList.Filtered | src/app/admin/bookings/BookingListClient.tsx:71-75 | the list shown holds exactly the bookings that match the current term |
| AdminBookings.AdminBookingList.HandleStatusUpdate | src/app/admin/bookings/BookingListClient.tsx:90-110 | on success only the matching booking's status changes in the list, on failure the list is unchanged; the store gets the new status, a Confirm blocks the booking's range on its car and fails exactly when that blocking fails, and the other collections stay |
| MyBookings.ActionsOffered | src/app/my-bookings/page.tsx:183-195 | Cancel is offered exactly for pending bookings, the agreement link exactly for confirmed ones, nothing for canceled ones |
| MyBookings.CancelAndAgreementExclusive | src/app/my-bookings/page.tsx:184-190 | no booking offers both Cancel and the agreement link |
| MyBookings.MyBookingsPage.HandleCancelClick | src/app/my-bookings/page.tsx:71-74 | the booking is selected and the dialog opens |
| MyBookings.MyBookingsPage.HandleCancelConfirm | src/app/my-bookings/page.tsx:76-103 | with nothing selected nothing happens; otherwise only the selected booking becomes `canceled` and only on success, and afterwards the dialog is closed and the selection cleared; cars, agreements, testimonials and users never change |
| Billing.ConfirmedBookings | src/app/admin/billing/page.tsx:25 | every booking passed on is confirmed |
| Billing.ConfirmedBookingsSpec | src/app/admin/billing/page.tsx:24-25 | a booking is passed on exactly when it is in the full list and confirmed; order is kept; filtering again changes nothing |
| Billing.BillingSearchKeepsConfirmed | src/app/admin/billing/BookingListClient.tsx:33-40 | the searched billing list holds only confirmed bookings of the full list that match the term, in their order |
| RentalAgreements.OrDefault | src/lib/rentalAgreementActions.ts:103-130 | a present, truthy stored value is kept; a missing or falsy one becomes the default |
| RentalAgreements.MergeSave | src/lib/rentalAgreementActions.ts:63-71 | supplied fields overwrite; fields not supplied keep their old values; `bookingId` is the argument and `lastUpdated` the server time |
| RentalAgreements.MergeSaveIdempotent | src/lib/rentalAgreementActions.ts:63-71 | saving the same data twice equals saving it once |
| RentalAgreements.SaveRentalAgreement | src/lib/rentalAgreementActions.ts:52-79 | the merge is stored under the booking id and returns success; a store failure gives "Failed to save rental agreement." and no change |
| RentalAgreements.Normalise | src/lib/rentalAgreementActions.ts:99-131 | the id is the record key; every text field missing or falsy becomes `''`, every billing number `0`, and the others keep their stored values |
| RentalAgreements.NormaliseDefaults | src/lib/rentalAgreementActions.ts:103-130 | each field read is either its default or the stored, truthy value |
| RentalAgreements.GetRentalAgreement | src/lib/rentalAgreementActions.ts:82-132 | no database is an error; a missing agreement reads as null; a present one is the stored record with the read's defaults, its key as id |
| RentalAgreements.SaveThenRead | src/lib/rentalAgreementActions.ts:52-132 | reading after a save gives every supplied truthy field and, for a field not supplied, what the earlier record gave |
| CarActions.UploadImages | src/lib/carActions.ts:11-36 | no images gives "No images provided for upload."; a rejected upload gives its message when any image is non-empty; otherwise one URL for each non-empty image, in input order |
| CarActions.ImageUrlsOfNonEmpty | src/lib/carActions.ts:21-33 | the URLs correspond one to one, in order, to the images of non-zero size |
| CarActions.NewCarDoc | src/lib/carActions.ts:47-53 | a new car has no booked dates, the given image URLs, the hint `<type> car` and the creation time |
| CarActions.AddThenRead | src/lib/carActions.ts:47-53 | reading the new car back gives an empty `bookedDates`, its images, flags, price and specifications |
| CarActions.AddCar | src/lib/carActions.ts:39-61 | no database gives "Database connection is not available." and a failed write "Failed to add car to the database."; success adds exactly the new car |
| CarActions.ApplyCarPatch | src/lib/carActions.ts:64-72 | for each of the ten patchable fields, a supplied value replaces the stored one and an absent one keeps it; a supplied creation time is stored as a plain string; the images are never touched |
| CarActions.ApplyCarPatchLaws | src/lib/carActions.ts:72 | an empty patch changes nothing; applying a patch twice equals applying it once |
| CarActions.PatchReplacesBookedDates | src/lib/carActions.ts:72 | a supplied `bookedDates` replaces the whole list, so a date it omits is no longer booked |
| CarActions.UpdateCar | src/lib/carActions.ts:64-82 | success patches exactly that car; a failed write or a missing car gives "Failed to update car in the database." and no change |
| CarActions.DeleteCar | src/lib/carActions.ts:85-121 | a missing id gives "Car not found"; a car with images whose deletion is rejected gives that rejection and stays; a rejected document delete gives its message and the car stays; otherwise exactly that car is removed |
| CarActions.Toggled | src/lib/carActions.ts:132-134 | the stored availability becomes the negation of the caller's state; nothing else changes |
| CarActions.ToggleUsesCallerState | src/lib/carActions.ts:124-134 | with a stale caller state the toggle leaves the car as it is; with a current one it flips the availability read back |
| CarActions.ToggleCarAvailability | src/lib/carActions.ts:124-143 | success writes the toggled car; a failure gives "Failed to update car availability." and no change |
| CarData.OrText | src/lib/data.ts:41-44 | a non-empty stored string is kept, a missing or empty one becomes the fallback |
| CarData.ToCarObject | src/lib/data.ts:32-53 | id is the document id; `isAvailable` and `priceEnabled` are true only when stored as `true`; missing lists become `[]`, missing price zero, missing description the fallback sentence, missing `createdAt` null |
| CarData.ToCarObjectIdempotent | src/lib/data.ts:32-53 | a normalised car, written back in full (an idealised write, not one the application performs) and normalised again, comes back unchanged |
| CarData.CarObjects | src/lib/data.ts:55-66 | no database gives `[]`; otherwise one normalised car per document, in order |
| CarData.FeaturedCars | src/lib/data.ts:69-80 | at most 3 cars: the first ones of the newest-first list |
| CarData.GetCarById | src/lib/data.ts:83-97 | a car comes back exactly when the database is there and holds the id, and it is the stored document normalised with that id |
| AdminDashboard.Validate | src/app/admin/page.tsx:46-68 | no errors exactly when the name has at least 2 characters, all three prices are ≥ 0, and there is at least one image, none over 5 MB and all of an accepted type; each failed rule gives its message |
| AdminDashboard.RefinementsAreIndependent | src/app/admin/page.tsx:59-66 | an oversized image of the wrong type gets both the size and the type message |
| AdminDashboard.ParseSpecifications | src/app/admin/page.tsx:133 | empty or absent text gives `[]`; no kept piece is blank |
| AdminDashboard.ParseSpecificationsPieces | src/app/admin/page.tsx:133 | the pieces kept are exactly the non-blank pieces between literal backslash-`n` separators, untrimmed; joining all the pieces gives the text back |
| AdminDashboard.NewlineIsNotASeparator | src/app/admin/page.tsx:133 | text without a literal backslash-`n` stays one specification, real newlines included |
| AdminDashboard.CarDataOf | src/app/admin/page.tsx:127-134 | an absent type becomes `''`; the specifications are the parsed text |
| AdminDashboard.OnSubmit | src/app/admin/page.tsx:115-154 | a car is added exactly when the upload returned URLs without a rejection and the write succeeds; with no URLs `addCar` is never reached; no other collection changes |
| TestimonialActions.CreateTestimonial | src/lib/testimonialActions.ts:23-40 | the new testimonial is always pending, whatever the input; failures give "Database not initialized" or "Could not create testimonial." |
| TestimonialActions.ApprovedTestimonials | src/lib/testimonialActions.ts:42-66 | only approved entries, and `[]` with no database |
| TestimonialActions.ApprovedTestimonialsSpec | src/lib/testimonialActions.ts:49-65 | exactly the store's approved testimonials, still newest first |
| TestimonialActions.UpdateTestimonialStatus | src/lib/testimonialActions.ts:84-90 | sets exactly the given status in either direction; a missing document or a rejected write is an error and changes nothing |
| TestimonialActions.DeleteTestimonial | src/lib/testimonialActions.ts:92-97 | the record for that id is gone afterwards unless the delete is rejected, which changes nothing; a missing id succeeds; nothing else changes |
| TestimonialActions.PendingTestimonialIds | src/lib/testimonialActions.ts:105 | exactly the testimonials awaiting review |
| TestimonialActions.GetPendingTestimonialCount | src/lib/testimonialActions.ts:99-112 | the number awaiting review, or 0 with no database or a failed query |
| TestimonialActions.ApproveThenReopen | src/lib/testimonialActions.ts:84-87 | approving lowers the pending count by one, and marking it pending again restores the store |
| AddTestimonial.Validate | src/app/add-testimonial/page.tsx:33-40 | no errors exactly when the name has ≥ 2 characters, the comment 10 to 500 and the rating is 1 to 5; each bound has its own message |
| AddTestimonial.InitialRatingRejected | src/app/add-testimonial/page.tsx:39-57 | the initial rating 0 is rejected |
| AddTestimonial.AddTestimonialPage.HighlightedIsPrefix | src/app/add-testimonial/page.tsx:160 | the highlighted stars are always a prefix of the five |
| AddTestimonial.AddTestimonialPage.MouseEnter | src/app/add-testimonial/page.tsx:164 | hovering star s highlights exactly stars 1 to s |
| AddTestimonial.AddTestimonialPage.MouseLeave | src/app/add-testimonial/page.tsx:165 | leaving highlights exactly the stars up to the chosen rating |
| AddTestimonial.AddTestimonialPage.Click | src/app/add-testimonial/page.tsx:166 | clicking sets the rating and the form's rating |
| AddTestimonial.AddTestimonialPage.UserLoaded | src/app/add-testimonial/page.tsx:61-68 | the name field takes the user's display name, or `''` |
| AddTestimonial.AddTestimonialPage.Submit | src/app/add-testimonial/page.tsx:74-96 | nothing is stored when validation fails or no user is logged in; otherwise a pending testimonial is stored, it succeeds exactly when the store is there and accepts the write, a failure keeps the form and the stored testimonials, and only on success is `isSubmitted` set and the form reset; no other collection changes |
| TestimonialList.MenuAction | src/components/admin/testimonial-list.tsx:178-186 | "Approve" exactly for pending testimonials, "Mark as Pending" otherwise |
| TestimonialList.MenuFlipsStatus | src/components/admin/testimonial-list.tsx:178-186 | the menu always offers the other status |
| TestimonialList.FilledStars | src/components/admin/testimonial-list.tsx:157-158 | of 5 stars, star i (from 0) is filled exactly when i < rating |
| TestimonialList.FilledStarsCount | src/components/admin/testimonial-list.tsx:157-158 | a rating from 0 to 5 fills exactly that many stars |
| TestimonialList.SetStatusById | src/components/admin/testimonial-list.tsx:65 | only the matching testimonial gets the new status |
| TestimonialList.WithoutSpec | src/components/admin/testimonial-list.tsx:77 | exactly the testimonials with other ids remain, in their order |
| TestimonialList.TestimonialListPanel.HandleStatusUpdate | src/components/admin/testimonial-list.tsx:61-71 | list and store change together and only on success, where exactly the matching entry gets the status; success exactly when the document exists and the write is accepted; the other collections stay |
| TestimonialList.TestimonialListPanel.HandleDelete | src/components/admin/testimonial-list.tsx:73-83 | list and store lose exactly that entry together, only on success, which happens exactly when the database is there and the delete is accepted; the other collections stay |
| CarList.WithoutSpec | src/components/admin/car-list.tsx:87 | exactly the cars with other ids remain, in their order |
| CarList.CarListPanel.HandleDeleteClick | src/components/admin/car-list.tsx:76-79 | the car is selected and the dialog opens |
| CarList.CarListPanel.HandleDeleteConfirm | src/components/admin/car-list.tsx:81-104 | with nothing selected nothing happens; otherwise the delete succeeds exactly when the car is stored, its images' deletion (if any) and the document delete are not rejected; only a successful delete removes the selected car from list and store, and afterwards the dialog is closed and the selection cleared; no other collection changes |
| Header.GetInitials | src/components/header.tsx:69-80 | with no email the initials are `U`, whatever the display name |
| Header.GetInitialsCases | src/components/header.tsx:69-80 | no display name gives the email's first two characters upper-cased; a one-part name gives its first two; a name of several non-empty parts gives the first letters of the first two |
| Header.TrailingSpaceInitials | src/components/header.tsx:72-76 | the name `"John "` gives the initials `JUNDEFINED` |
| Header.SplitTrailingSpace | src/components/header.tsx:72-73 | `split(' ')` of a space-free word followed by one space gives the word and an empty last piece |
| Header.GetInitialsIntended | src/components/header.tsx:69-80 | one or two characters, `U` with no email |
| Header.TrailingSpaceIntended | src/components/header.tsx:72-77 | with empty parts ignored, the name `"John "` gives `JO` |
| Header.IntendedInitialsComeFromInput | src/components/header.tsx:72-79 | each initial is an upper-cased character of the email or the display name |
| Header.IntendedAgreesWithoutEmptyParts | src/components/header.tsx:72-77 | when no part of the name is empty, the corrected initials equal the original ones |
| Header.CurrentNavLinks | src/components/header.tsx:25-34 | the three public links come first and in order; "My Bookings" is added exactly for a logged-in user |
| Header.RoleOf | src/context/AuthContext.tsx:42-50 | a missing profile or role gives `user` |
| Header.AdminLinkNeedsAdminProfile | src/components/header.tsx:115 | the Admin Dashboard entry appears exactly when the stored profile's role is `admin` |
| UserActions.FirstGiven | src/lib/userActions.ts:20-21 | the first non-empty of the two values, or null |
| UserActions.UserData | src/lib/userActions.ts:17-24 | uid and email copied; display name from the form, else from auth, else null; phone or null; role `user`; the server's creation time |
| UserActions.CreateUserInFirestore | src/lib/userActions.ts:10-39 | no database gives "Failed to create user profile due to database connection issue."; otherwise the profile is merged in; a failed write is not reported |
| UserActions.ProfileWriteResetsRole | src/lib/userActions.ts:22-27 | writing the profile of an existing admin sets the role back to `user` |
| Currency.Symbol | src/context/CurrencyContext.tsx:16-20 | `$` for USD, `Rs ` with its trailing space for LKR, and the mis-encoded three-character string for EUR |
| Currency.SymbolsDistinct | src/context/CurrencyContext.tsx:16-20 | the three symbols differ, and EUR's is not `€` |
| Currency.CurrencyProvider.GetSymbol | src/context/CurrencyContext.tsx:25 | the table entry for the current currency |
| Currency.CurrencyProvider.SetCurrency | src/context/CurrencyContext.tsx:23-25 | the chosen currency's symbol from then on |
| Currency.UseCurrency | src/context/CurrencyContext.tsx:34-40 | outside a provider the error "useCurrency must be used within a CurrencyProvider" |
| Login.Validate | src/app/login/LoginForm.tsx:32-35 | no errors exactly when the email is valid and the password has at least 6 characters |
| Login.ErrorMessage | src/app/login/LoginForm.tsx:62-67 | the four credential codes give "Invalid email or password. Please try again.", any other code the unexpected-error message |
| Login.LoginForm.Destination | src/app/login/LoginForm.tsx:60 | the `redirect` parameter when present, else `/` |
| Login.LoginForm.OnSubmit | src/app/login/LoginForm.tsx:52-69 | without auth the configuration error is set and nothing is attempted; otherwise the error is cleared, and a sign-in navigates to the destination while a failure sets the mapped message |
| Text.JoinSplit | src/app/admin/page.tsx:133 | joining the pieces of a split with its separator gives the text back |
| Text.SplitCharCount | src/components/header.tsx:73-74 | splitting on a character gives more than one part exactly when the character occurs |

## Left out

- Firestore, Storage and Auth are not called. The store is the five in-memory maps of `Records.RecordStore`, and a back-end failure is a parameter where a member names one. Permission-error objects and the error emitter are not modelled.
- `revalidatePath`, toasts, `console` output and router pushes are left out because they leave no state in the records. The login redirect is the exception: it is `Login.LoginForm.navigatedTo`.
- The `createdAt` conversions on read, which fall back to the current time, are left out.
- BookingActions.UpdateBookingStatus: the status write is never awaited in the source. The model lets it complete before the confirmation reads the booking back. A failed status write is therefore not modelled, and there are no concurrent updates.
- The application does not re-check a requested range against `bookedDates` before confirming. The model makes no such claim.
- BookingActions.BlockCarDates: the store rejecting the `arrayUnion` write on an existing car is not modelled; blocking fails only on an invalid interval or a missing car.
- CarData.GetCarById: the read itself failing is not modelled, and neither is it for RentalAgreements.GetRentalAgreement and the list reads; only a missing database or document is.
- BookingActions.CancelBookingRequest, BookingActions.UpdateBookingStatus, CarActions.DeleteCar: the lookup read of the record (`getDoc`, outside any `try`) failing is not modelled. The store's own error would then be thrown instead of the member's message. For a confirmation, the un-awaited status write may already have landed by then, leaving the booking `confirmed` with no dates blocked; the model has no such outcome.
- BookingActions.BlockCarDates: date-fns behaviour on unparsable or reversed dates is not modelled. The model returns the error "Invalid interval" there, and creation reports it as "Failed to create booking request: …".
- Dates are calendar days in years 0 to 9999 and `yyyy-MM-dd` is the only format parsed. Time zones and the full date-fns parser are not modelled. The manual-booking `refine` compares calendar days.
- Text is ASCII. `toLowerCase` and `toUpperCase` map only A–Z, and string lengths count characters, not UTF-16 units.
- Text.IsValidEmail: a simplified form of zod's email pattern: one `@`, a dotted domain and a fixed character set.
- Numbers are reals. Form-number coercion and NaN are not modelled, nor are JavaScript's floating-point prices.
- The uploadFile MIME-type warning is left out because it only logs.
- CarActions.UploadImages: reads the clock once for all file names, while the source reads it per image.
- CarActions.DeleteCar: the image deletions are one outcome, `storageError`; which images were deleted before a rejection, and a URL so malformed that no storage reference can be made for it (the source skips it), are not modelled.
- BookingActions.CreateBookingRequest: when the id write is rejected the stored record lacks its `id` field; the model keys the record by its id and cannot show the missing field. Files uploaded before a rejected upload are not modelled.
- Reading the booking lists (getBookingRequestById, getBookingRequestsForUser, getAllBookingRequests, getAllTestimonials, getCarsForAdmin) is left out beyond their ordering. The lists are given as parameters, newest first.
- CarData.FeaturedCars: like TestimonialActions.ApprovedTestimonials, it takes the store's newest-first ordering as given rather than sorting.
- The effects that reload a page's list from new props, and the admin dashboard's form reset, tab switch and re-render key, are left out: they are UI state outside the records.
- AddTestimonial.AddTestimonialPage.Submit: `form.reset()` resets the form's rating but not the page's separate `rating` and `hoverRating` state, as in the source.
- Billing totals, the printable and PDF agreement pages, the residency-dependent document rules and the marketing pages are left out. None of them computes record state.

## Findings

| source | as written | input that shows it | evidently intended | confidence | as-written member | corrected member |
|---|---|---|---|---|---|---|
| src/components/header.tsx:72-76 | `name.split(' ')` keeps empty parts, and `parts[1][0]` of an empty part is `undefined`, which the template turns into the text "undefined" | email `jo@example.com`, display name `"John "` (a trailing space) gives `JUNDEFINED` | initials from the non-empty words only, here `JO` | not executed | Header.TrailingSpaceInitials | Header.TrailingSpaceIntended |
