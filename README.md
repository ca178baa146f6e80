# Hotel booking and payment rules, modelled in Dafny

This project models the business core of a hotel management web service:

- customers search for free rooms, book one or more rooms for a date range, pay through VNPay, cancel, list their bookings and review a stay;
- administrators set a booking's status and edit rooms.

The database is one in-memory store. `Database.Store` is a class with one field per table: bookings, booking_rooms, rooms, room_images, payments, bills, reviews, user names and the booking id counter. A transaction takes a `Tables` snapshot when it begins; a rollback restores it (`Store.Restore`).

Every state-changing use case is a method on the store, and each one is proved equal to a function on `Tables`. Examples are `CreateBooking` and `CreateBookingSpec`, and `HandleVnpayCallback` and `Callback`. The properties are lemmas about those functions: error precedence, all-or-nothing, what a successful call writes and that nothing else changes, at-most-once settlement, and invariants that are kept.

Database failures are an input. A use case takes `fails: set<DbStep>`, and a call fails exactly when its step is in the set. Steps made once per requested room carry the room's position in the request. Repository queries whose driver error is passed through take `fault: Option<string>` instead.

Modules, in dependency order:

- `Wrappers`, `Errors`, `Strings`, `KeyOrder`, `Status`, `Models`, `Database`: values, error keys, the parts of Go's `strings`, `strconv`, `fmt`, `hex` and `sort` the core uses, the statuses, the rows and the store.
- `Transaction`: the `WithTransaction` combinator.
- `BookingRepository`, `RoomRepository`: the availability rule, the lookups, the booking search, the active-bookings query, the booking_rooms deletion, the room search and the room update.
- `Vnpay`: payment link construction (amount, address and configuration checks, the canonical sorted query string, the signature suffix).
- `PaymentUseCase`: `GetVnPayUrl` and the VNPay callback state machine.
- `BookingUseCase`: `CreateBooking`, `CancelBooking`, `GetBookingHistory`.
- `AdminBookingUseCase`: `UpdateBookingStatus`.
- `ReviewUseCase`: `CreateReview`.
- `RoomUseCase`: `SearchRoom`.
- `Validator`: the staff input validator.
- `RoomFormParser`: the admin room form.

Representation choices:

- Money is a real number; Go's `int(f)` is `Trunc`, which rounds toward zero.
- Times are whole seconds; the number of nights is the ceiling of the stay's length divided by 86400.
- Statuses are a closed datatype with a distinct `Pending`. New bookings get `constant.PENDING`, which no constants file defines. The model stores `Pending` as "pending", its own choice.

## Model

| member | source | states |
|---|---|---|
| Strings.TrimSpace | internal/validator/validate.go:9 | the result is empty iff the input is all white space; otherwise it neither starts nor ends with white space; it is a block of the input with only white space before and after it |
| Strings.TrimSpaceIdempotent | internal/handler/admin/room_form_parser.go:50-55 | trimming a trimmed string changes nothing |
| Strings.Utf8Len | internal/validator/validate.go:9-14 | Go's byte length lies between the character count and four times it |
| Strings.AsciiUtf8Len | internal/validator/validate.go:12 | on ASCII text the byte length equals the character count |
| Strings.CountChar | internal/utils/vnpay.go:31 | `strings.Count` of one character is zero exactly when the character is absent |
| Strings.ReplacePlus | internal/utils/vnpay.go:75 | no '+' survives, and each '+' adds two characters |
| Strings.ReplacePlusChar | internal/utils/vnpay.go:75 | a '+' becomes "%20"; any other character stays |
| Strings.ReplacePlusConcat | internal/utils/vnpay.go:75 | the replacement of a concatenation is the concatenation of the replacements, so each character is rewritten in place |
| Strings.ReplacePlusNoPlus | internal/utils/vnpay.go:75 | a string without '+' is left unchanged |
| Strings.Decimal | internal/utils/vnpay.go:50 | the `%d` rendering is a non-empty digit string with no leading zero except for 0 |
| Strings.DecimalRoundTrip | internal/utils/vnpay.go:50 | reading the decimal rendering back gives the number |
| Strings.DecimalInjective | internal/usecase/payment_usecase.go:40 | distinct booking ids render differently |
| Strings.HexUpper | internal/utils/vnpay.go:80 | upper-case hex has two upper-case hex digits per byte |
| Strings.HexRoundTrip | internal/utils/vnpay.go:80 | decoding the upper-case hex rendering gives back the bytes |
| KeyOrder.StrLessIrreflexive | internal/utils/vnpay.go:68 | Go's string order is irreflexive |
| KeyOrder.StrLessAsymmetric | internal/utils/vnpay.go:68 | Go's string order is asymmetric |
| KeyOrder.StrLessTransitive | internal/utils/vnpay.go:68 | Go's string order is transitive |
| KeyOrder.StrLessTotal | internal/utils/vnpay.go:68 | any two distinct strings are ordered |
| KeyOrder.InsertSorted | internal/utils/vnpay.go:68 | inserting a new key keeps the list ascending and adds exactly that key |
| KeyOrder.SortKeys | internal/utils/vnpay.go:68 | `sort.Strings` returns an ascending list with exactly the input's keys and the same length |
| KeyOrder.SortedUnique | internal/utils/vnpay.go:68 | a set of keys has only one ascending listing, so the sorted order does not depend on map iteration order |
| Status.StatusNameInjective | internal/constant/booking_status.go:3-9 | the status constants are pairwise distinct |
| Status.ParseStatus | internal/constant/booking_status.go:3-9 | a parsed status's stored name is the parsed string |
| Status.ParseRoundTrip | internal/constant/booking_status.go:3-9 | every status's stored name parses back to it |
| Status.IsValidBookingStatus | internal/constant/booking_status.go:11-21 | a missing key reads as false; valid exactly for the names of the five non-pending statuses |
| Status.ValidIffNotPending | internal/constant/booking_status.go:11-21 | a status's name is valid iff the status is not pending, so "pending" is invalid |
| Status.ValidIsStatusName | internal/constant/booking_status.go:11-21 | every valid string names a non-pending status |
| Transaction.WithTransaction | internal/utils/transaction.go:9-33 | a Begin error is returned and the body never runs; the body's error is returned with the state rolled back; a commit failure gives `error.commit_transaction_failed` with the state rolled back; success iff all three succeed, keeping the body's changes |
| Database.Store.Restore | internal/utils/transaction.go:22-25 | a rollback puts back every table the snapshot recorded |
| Validator.ValidateCreateStaffInput | internal/validator/validate.go:8-16 | invalid name iff blank after trimming or shorter than 2 bytes; otherwise invalid phone iff its byte length is outside [10, 11]; otherwise no error |
| Validator.ValidatorExamples | internal/validator/validate.go:9-14 | phone content is not checked; a two-byte letter is a long enough name; a blank name is refused before a bad phone |
| BookingRepository.ConflictCount | internal/repository/booking_repository.go:66-72 | the joined count is zero iff no row of the room links to a blocking booking that strictly overlaps the range |
| BookingRepository.IsAvailableRoom | internal/repository/booking_repository.go:65-78 | a failed query is an error; otherwise the room is available iff no booked or checked-in booking of the room overlaps the range strictly |
| BookingRepository.BackToBackAvailable | internal/repository/booking_repository.go:70 | ranges that only meet end to start never conflict |
| BookingRepository.NonBlockingBookingIgnored | internal/repository/booking_repository.go:71 | adding a pending, checked-out, cancelled or no-show booking with its rows changes no availability answer |
| BookingRepository.GetBookingByID | internal/repository/booking_repository.go:106-119 | a failed query is reported; otherwise the first row with the id, or not found iff no row has it |
| BookingRepository.GetBookingByBookingIDAndUserID | internal/repository/booking_repository.go:98-105 | a booking is returned only when both its id and its owner match; not found iff no row matches both |
| BookingRepository.GetPriceByRoomID | internal/repository/booking_repository.go:80-87 | the nightly price of a room with that id; not found iff no room has it |
| BookingRepository.ActiveBookings | internal/repository/booking_repository.go:161-169 | exactly the bookings linked to the room that are checked in and whose stay contains now |
| BookingRepository.GetActiveBookingsByRoomID | internal/repository/booking_repository.go:161-169 | the driver's error is passed through; otherwise exactly the checked-in bookings of the room with start <= now <= end |
| BookingRepository.ActiveBookingBlocks | internal/repository/booking_repository.go:161-169 | a booking the active query returns makes its room unavailable for any range around now |
| BookingRepository.SearchFilter | internal/repository/booking_repository.go:142-153 | keeps the bookings whose owner's name contains the given name and whose status equals the given status, an empty value not filtering; each kept booking appears as often as in the table, no other appears, and the table's order is kept |
| BookingRepository.SearchWithoutFilterKeepsAll | internal/repository/booking_repository.go:146-152 | with no name and no status every booking is returned |
| BookingRepository.InsertNewestFirst | internal/repository/booking_repository.go:154 | inserting into a list ordered by creation time descending keeps it ordered and adds exactly that booking |
| BookingRepository.SearchBookings | internal/repository/booking_repository.go:142-159 | the driver's error is passed through; otherwise the filtered bookings, newest first, as a permutation of the filter's result |
| BookingRepository.WithoutRoom | internal/repository/booking_repository.go:42 | exactly the rows of other rooms remain, each as many times as before, in table order |
| BookingRepository.DeleteBookingRoomByRoomIDTx | internal/repository/booking_repository.go:41-47 | removes exactly the booking_rooms rows of the room and changes nothing else; on a driver error nothing changes |
| BookingRepository.DeletedRoomAvailable | internal/repository/booking_repository.go:41-47 | once its rows are deleted a room is available for every range |
| RoomRepository.MatchingRooms | internal/repository/room_repository.go:36-63 | exactly the rooms that are open, not blocked for the range, match each supplied filter, and lie in the price range when both bounds are given |
| RoomRepository.FindAvailableRoom | internal/repository/room_repository.go:36-68 | the driver's error is passed through; every room returned is open and available for the range by the booking-time check |
| RoomRepository.SearchAgreesWithAvailability | internal/repository/room_repository.go:38-49 | without optional filters a room is listed iff it is open and `IsAvailableRoom` says it is free |
| RoomRepository.OneBoundIgnored | internal/repository/room_repository.go:60-62 | with only one price bound there is no price filter |
| RoomRepository.EditRoom | internal/repository/room_repository.go:120-123 | the eight selected fields come from the edit; the id and creation time stay |
| RoomRepository.UpdateRows | internal/repository/room_repository.go:119-123 | rows with the edit's id are edited, every other row is unchanged |
| RoomRepository.UpdateRoomTx | internal/repository/room_repository.go:119-128 | only the rooms table changes, by `UpdateRows`; on a driver error nothing changes |
| RoomRepository.ClosedRoomNotListed | internal/repository/room_repository.go:48 | a room switched to not available drops out of every search |
| RoomUseCase.RoomImages | internal/repository/room_repository.go:47 | every image returned is one of the room's, every image of the room is returned, and there are no more than the table has |
| RoomUseCase.RoomImagesExact | internal/repository/room_repository.go:47 | each image of the room appears as often as in the table, no other image appears, and the table's order is kept |
| RoomUseCase.SearchRoom | internal/usecase/room_usecase.go:17-45 | on a repository error, an empty list and that error; otherwise one response per room found, in order, copying the room's fields and listing its image URLs in order |
| PaymentUseCase.Trunc | internal/usecase/payment_usecase.go:54 | `int(f)` drops the fraction toward zero |
| PaymentUseCase.TxnRef | internal/usecase/payment_usecase.go:40 | the reference starts with the booking id in decimal followed by '-' |
| PaymentUseCase.GetPaymentByTxnRef | internal/repository/payment_repository.go:31-41 | a failed query is reported; otherwise the first payment with the reference, or not found iff none has it |
| PaymentUseCase.GetVnPayUrlEffects | internal/usecase/payment_usecase.go:28-59 | a failed lookup, a missing booking and a paid booking give their errors in that order and write nothing; at most the one pending payment is written; a link is the one for the booking's truncated total |
| PaymentUseCase.GetVnPayUrl | internal/usecase/payment_usecase.go:28-59 | the method's store and result are those of `GetVnPayUrlSpec` |
| PaymentUseCase.LinkCarriesTruncatedTotal | internal/usecase/payment_usecase.go:54 | the link's amount field is the booking's total truncated to an integer, times 100 |
| PaymentUseCase.Reconcile | internal/usecase/payment_usecase.go:63-109 | a payment already processed changes nothing; a successful body adds one bill for code "00" and none otherwise |
| PaymentUseCase.Callback | internal/usecase/payment_usecase.go:61-110 | any error leaves every table unchanged and success keeps the reconciled tables; a failed payment lookup, then a missing payment, then a missing booking, then an already-processed payment |
| PaymentUseCase.ReconcileTx | internal/usecase/payment_usecase.go:64-108 | the method's store and error are those of `Reconcile` |
| PaymentUseCase.HandleVnpayCallback | internal/usecase/payment_usecase.go:61-110 | the method's store and error are those of `Callback`, which rolls back to the snapshot on any error |
| PaymentUseCase.SettlementEffects | internal/usecase/payment_usecase.go:84-101 | code "00": the payment becomes successful with VNPay's transaction number, the booking becomes paid and booked, one bill for its total is added, and nothing else changes |
| PaymentUseCase.DeclineEffects | internal/usecase/payment_usecase.go:102-104 | any other code: only the payment changes, to failed |
| PaymentUseCase.SecondDeliveryChangesNothing | internal/usecase/payment_usecase.go:80-82 | after a successful callback, a second delivery of the reference fails, changes nothing and adds no bill |
| PaymentUseCase.CallbackKeepsPaidHasBill | internal/usecase/payment_usecase.go:84-101 | every paid booking still has a bill after any callback |
| Vnpay.CheckAmount | internal/utils/vnpay.go:17-22 | amount <= 0 is invalid, amount > 999999999 exceeds the limit, and otherwise the amount passes |
| Vnpay.NormalizeIp | internal/utils/vnpay.go:24-33 | a blank address is empty; otherwise the trimmed address, "::1" read as "127.0.0.1", is accepted iff it has exactly three dots or contains a colon, and is returned |
| Vnpay.SignedKeysSorted | internal/utils/vnpay.go:46-68 | the thirteen signed names, listed in `sort.Strings` order |
| Vnpay.HashKeysNotSigned | internal/utils/vnpay.go:62-67 | neither hash parameter is among the signed names |
| Vnpay.SignedValues | internal/utils/vnpay.go:46-59 | one value per signed name |
| Vnpay.Params | internal/utils/vnpay.go:46-60 | the parameters are the thirteen signed names with their values, plus `vnp_SecureHashType` = "HMACSHA512" |
| Vnpay.Pair | internal/utils/vnpay.go:75 | a pair starts with the name and '=' |
| Vnpay.PaymentUrl | internal/utils/vnpay.go:16-84 | the amount is checked before the address, the address before the configuration; success iff all pass; the link is base '?' signed string, the hash-type suffix and the hex signature of the signed string |
| Vnpay.CreateVnpayPaymentURL | internal/utils/vnpay.go:16-84 | the method's result is `PaymentUrl`'s, whatever order the parameter map yields its names |
| Vnpay.SignAndLink | internal/utils/vnpay.go:62-83 | sorting, writing and signing give the link of the canonical signed string |
| Vnpay.SortedNames | internal/utils/vnpay.go:62-68 | the collected and sorted names are exactly the signed names in ascending order |
| Vnpay.UnsignedNamesRemoved | internal/utils/vnpay.go:62-67 | the collected names are the map's names without the two hash parameters, each once |
| Vnpay.WritePairs | internal/utils/vnpay.go:70-76 | the builder holds the pairs of the names in order, '&' between them |
| Vnpay.SignDataStartsWithAmount | internal/utils/vnpay.go:70-76 | the signed string opens with the amount pair |
| Vnpay.AmountField | internal/utils/vnpay.go:50 | the link opens with `vnp_Amount=` and the digits of amount × 100, which read back as amount × 100 |
| Vnpay.SignatureRecoverable | internal/utils/vnpay.go:78-83 | the link's tail decodes to the HMAC of the signed string under the secret |
| BookingUseCase.Ceil | internal/usecase/booking_usecase.go:67 | `math.Ceil` is the least integer not below its argument |
| BookingUseCase.Nights | internal/usecase/booking_usecase.go:67 | nights n satisfy (n-1) days < stay <= n days |
| BookingUseCase.NightsIsCeilingDivision | internal/usecase/booking_usecase.go:67 | nights are the ceiling division of the stay by 86400, and a positive stay has at least one night |
| BookingUseCase.NightsExamples | internal/usecase/booking_usecase.go:67 | 16 hours is one night; three days is three; three days and a second is four |
| BookingUseCase.RoomCheckMeaning | internal/usecase/booking_usecase.go:43-61 | id <= 0 is invalid; a room passes iff its id is positive, it is available, it exists and neither query fails; then it is priced at its nightly rate; only the loop's four errors occur |
| BookingUseCase.TotalIsSumTimesNights | internal/usecase/booking_usecase.go:63-69 | the running total equals the sum of the prices times the nights |
| BookingUseCase.QuoteSucceedsIffAllPass | internal/usecase/booking_usecase.go:43-69 | the loop succeeds iff every requested room passes its checks |
| BookingUseCase.QuoteReportsFirstFailure | internal/usecase/booking_usecase.go:43-61 | a failing loop returns the error of the first failing room |
| BookingUseCase.QuoteLines | internal/usecase/booking_usecase.go:63-66 | one line per requested id, in request order, with the price found for it |
| BookingUseCase.QuotedRooms | internal/usecase/booking_usecase.go:43-66 | every line's room passed its checks at booking time |
| BookingUseCase.WithBookingId | internal/usecase/booking_usecase.go:86-88 | each line gets the new booking's id and keeps everything else |
| BookingUseCase.CheckRoom | internal/usecase/booking_usecase.go:44-61 | the loop body returns the checks' error or the room's price, as `RoomCheck` |
| BookingUseCase.PriceRooms | internal/usecase/booking_usecase.go:43-69 | the loop fails iff the quote does, with its error; otherwise it returns the quote's lines and a running total equal to their stay price |
| BookingUseCase.InsertBookingRooms | internal/usecase/booking_usecase.go:86-92 | succeeds iff no line insert fails, and then appends exactly the lines with the booking id |
| BookingUseCase.InsertBookingAndPay | internal/usecase/booking_usecase.go:71-105 | the store and result after the inserts, the payment and the commit are those of `PlaceBooking`, rolled back on every error |
| BookingUseCase.CreateBooking | internal/usecase/booking_usecase.go:25-106 | the method's store and result are those of `CreateBookingSpec` |
| BookingUseCase.CreateBookingAllOrNothing | internal/usecase/booking_usecase.go:80-104 | any failure leaves no booking, line or payment: the tables are the ones at Begin |
| BookingUseCase.CreateBookingFirstFailingRoom | internal/usecase/booking_usecase.go:43-61 | the first failing room decides the error, and nothing is written |
| BookingUseCase.CreateBookingSucceedsIff | internal/usecase/booking_usecase.go:25-106 | success iff every room passes, every insert succeeds, the link can be built for the new booking's truncated total, and the commit succeeds |
| BookingUseCase.CreateBookingTables | internal/usecase/booking_usecase.go:72-92 | a successful call adds the new booking, its lines with its id, and one pending payment |
| BookingUseCase.CreateBookingLink | internal/usecase/booking_usecase.go:94-105 | the returned link is the payment link for the new booking's id, reference and truncated total |
| BookingUseCase.CreateBookingEffects | internal/usecase/booking_usecase.go:72-79 | the booking is pending, unpaid, has the next id, the caller, the request's dates and the stored lines' stay price; exactly one booking, the lines and one payment are added |
| BookingUseCase.CreateBookingStoredLines | internal/usecase/booking_usecase.go:63-92 | one stored line per requested room, in order, with the new booking's id and a room that passed its checks |
| BookingUseCase.CreateBookingKeepsIdsValid | internal/usecase/booking_usecase.go:80-83 | booking ids stay positive, ascending and below the counter |
| BookingUseCase.CancelBooking | internal/usecase/booking_usecase.go:141-160 | the method's store and error are those of `CancelBookingSpec` |
| BookingUseCase.CancelBookingErrors | internal/usecase/booking_usecase.go:142-151 | a zero id, then a failed lookup, then a missing or foreign booking, in that order; no error writes |
| BookingUseCase.CancelBookingSucceedsIff | internal/usecase/booking_usecase.go:141-160 | success iff the id is positive, the caller owns a booked booking with it, and neither query fails |
| BookingUseCase.CancelBookingEffects | internal/usecase/booking_usecase.go:152-158 | only that booking's status changes, from booked to cancelled; id validity and "paid implies billed" are kept |
| BookingUseCase.CancelTwiceFails | internal/usecase/booking_usecase.go:152-154 | cancelling the same booking again fails and writes nothing |
| BookingUseCase.CancelOthersBookingNotFound | internal/usecase/booking_usecase.go:145-148 | another user's booking is not found and nothing changes |
| BookingUseCase.UserBookings | internal/repository/booking_repository.go:89-96 | every booking returned is the user's, every booking of the user is returned, and there are no more than the table has |
| BookingUseCase.UserBookingsExact | internal/repository/booking_repository.go:89-96 | each booking of the user appears as often as in the table, no other booking appears, and the table's order is kept |
| BookingUseCase.RoomsOfBooking | internal/repository/booking_repository.go:91 | every line returned is the booking's, every line of the booking is returned, and there are no more than the table has |
| BookingUseCase.RoomsOfBookingExact | internal/repository/booking_repository.go:91 | each line of the booking appears as often as in the table, no other line appears, and the table's order is kept |
| BookingUseCase.PreloadedRoom | internal/repository/booking_repository.go:91 | the room with the line's id, or the zero room when there is none |
| BookingUseCase.HistoryRooms | internal/usecase/booking_usecase.go:118-127 | one history room per line, in order, with the room's details and the captured price |
| BookingUseCase.GetBookingHistory | internal/usecase/booking_usecase.go:108-139 | fails iff the query fails, with the history error; otherwise one entry per booking of the user, in order, with its fields and rooms |
| BookingUseCase.CancelledBookingInHistory | internal/usecase/booking_usecase.go:128-136 | after a successful cancel the booking's history entry shows "cancelled" |
| AdminBookingUseCase.LockedError | internal/usecase/admin_usecase/booking_usecase.go:44-52 | checked out, cancelled and no show, and only they, have a lock error |
| AdminBookingUseCase.UpdateBookingStatus | internal/usecase/admin_usecase/booking_usecase.go:33-59 | the method's store and error are those of `UpdateBookingStatusSpec` |
| AdminBookingUseCase.UpdateStatusErrors | internal/usecase/admin_usecase/booking_usecase.go:34-40 | a failed lookup, then a missing booking; no error writes |
| AdminBookingUseCase.SameStatusIsNoOp | internal/usecase/admin_usecase/booking_usecase.go:41-43 | the current status succeeds without a write, even when it is locked |
| AdminBookingUseCase.LockedStatusRefuses | internal/usecase/admin_usecase/booking_usecase.go:44-52 | each locked status refuses a change with its own error and writes nothing |
| AdminBookingUseCase.OverwriteEffects | internal/usecase/admin_usecase/booking_usecase.go:53-58 | otherwise only the booking's status changes, to the requested one, with no transition table |
| AdminBookingUseCase.UpdateStatusSucceedsIff | internal/usecase/admin_usecase/booking_usecase.go:33-59 | success iff the booking exists and the lookup works, and it already has the status or is unlocked and the write succeeds |
| AdminBookingUseCase.UpdateStatusIdempotent | internal/usecase/admin_usecase/booking_usecase.go:41-43 | setting a status twice is the same as setting it once |
| ReviewUseCase.ReviewCount | internal/repository/review_repository.go:30-37 | the count is positive iff the booking has a review |
| ReviewUseCase.CreateReview | internal/usecase/review_usecase.go:26-55 | the method's store and error are those of `CreateReviewSpec` |
| ReviewUseCase.CreateReviewLookupErrors | internal/usecase/review_usecase.go:27-33 | a failed lookup and a missing booking give their errors; no error writes |
| ReviewUseCase.CreateReviewCheckOrder | internal/usecase/review_usecase.go:31-43 | the owner is checked first, then the status, then the review check, then an existing review |
| ReviewUseCase.CreateReviewEffects | internal/usecase/review_usecase.go:44-54 | success adds exactly one review with the caller and the request's booking, room, rating and comment, for the caller's checked-out, unreviewed booking |
| ReviewUseCase.CreateReviewKeepsOneReviewPerBooking | internal/usecase/review_usecase.go:37-43 | no booking ever gets two reviews |
| ReviewUseCase.SecondReviewRefused | internal/usecase/review_usecase.go:41-43 | a second review of the same booking is refused and writes nothing |
| RoomFormParser.FileError | internal/handler/admin/room_form_parser.go:86-91 | a file passes iff it is at most 2 MiB and of an allowed type; too large is reported before the type |
| RoomFormParser.ImagesError | internal/handler/admin/room_form_parser.go:85-92 | no error iff every file passes; otherwise the error of the first failing file |
| RoomFormParser.CheckImages | internal/handler/admin/room_form_parser.go:85-92 | the loop returns the first failing file's error, as `ImagesError` |
| RoomFormParser.FirstFailingFile | internal/handler/admin/room_form_parser.go:85-92 | when every earlier file passes, the first failing file's error is the result |
| RoomFormParser.SizeLimitInclusive | internal/handler/admin/room_form_parser.go:86-88 | exactly 2 MiB passes, one byte more is too large whatever the type, and an unreadable file is refused |
| RoomFormParser.ParseRoomForm | internal/handler/admin/room_form_parser.go:49-105 | errors come in order (missing field, price, beds, multipart form, too many images, first bad file); success iff none applies, with the trimmed fields, parsed numbers, "on" flags and files |

## Left out

- HMAC-SHA512, `url.QueryEscape`, the date format, `os.Getenv`, `uuid.New`, `time.Now`, `strconv` and `http.DetectContentType` are parameters: library code whose results the core only passes on.
- Vnpay.PaymentUrl: the signature's value is not computed. The link is stated in terms of the HMAC parameter, and RFC 2104 and FIPS 180-4 are not modelled.
- KeyOrder.SortKeys: proved for inputs without repeated keys only, which is the only way the core calls `sort.Strings`. Map keys are distinct.
- The database engine: isolation, concurrency and the race between the availability check and the insert are not modelled. Every query answer is computed from the store, and a failed call is an input.
- A query whose driver error the use case translates reports one failure kind. The driver's message is not kept.
- `GetBookingByUserID`'s ordering: gorm's `Find` without `ORDER BY` is modelled as table order.
- BookingRepository.SearchFilter: the name filter is a plain substring match. `%` and `_` in the searched name are not treated as LIKE wildcards, and SQL collation (case folding) is not modelled.
- Soft deletes, `created_at`/`updated_at` bookkeeping, and gorm's `Updates` skipping zero-valued fields are not modelled. The use cases only write non-zero values where it matters.
- `panic`/`recover` in `CreateBooking` and `WithTransaction`: Dafny code does not panic.
- `CreateBooking` ignores an error from `Begin`; the model does the same and starts from the current tables.
- Floating-point money and `math.Ceil` on a float: money is real and time is whole seconds. NaN, infinities and rounding of the total are not modelled.
- The number of nights is `ceil(hours / 24)`: a 16-hour stay is one night.
- One `now` per call: the clock is read once, for the payment's `PaidAt`, the link's creation and expiry times, and the bill's `ExportAt`.
- Status.StatusName: `constant.PENDING` is not defined in the constants files, so the stored name of `Pending` ("pending") is chosen by the model. Nothing depends on it except that it is not one of the five valid names.
- `CreateBooking` accepts the same room id twice in one request, and a pending booking does not block a room. Both are as written, and the model keeps them.
- The non-empty room list and the dates (end after start, start not in the past) are checked by the HTTP binding and the handler, not by the use case. The model accepts any request.
- A nil and an empty slice are one value, so the history of a user without bookings is the empty sequence.
- `GetBookingHistory`'s not-found branch is unreachable, because `Find` never reports a missing row. The model has no such branch.
- `CreateReview` does not check that the review's room belongs to the booking; the model does not either. The rating range 1–5 is enforced only by request binding.
- AdminBookingUseCase.UpdateBookingStatus: requires a whitelisted status, which the handler guarantees before calling. An arbitrary string is not modelled.
- `GetVnPayUrl` can be called again for an unpaid booking with a pending payment, leaving two pending payments. Each could then be settled once, producing two bills; nothing in the code prevents this, and the model keeps it.
- The thin admin wrappers (`GetAllBookingsWithUser`, `UpdateBooking`, `GetBookingDetail`, admin `SearchBookings`) only forward to the repository. They are covered by the repository functions.
- HTTP handlers, templates, sessions, i18n, authentication, mail, staff management and the admin room image files are outside this model.
