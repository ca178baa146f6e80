/**
 * The error values the core returns.  Every use case returns a sentinel whose
 * message key is a fixed string; errors that share a key (for example the
 * multipart-form error and the invalid-request error of the room form) are one
 * constructor here.  `DbError` stands for an error of the database driver that
 * is passed through unchanged.
 */
module Errors {

  datatype Error =
    // internal/usecase/booking_usecase.go
    | InvalidRoomId
    | RoomIsNotAvailable
    | RoomNotFound
    | FailedToGetRoomPrice
    | FailedToCreateBooking
    | FailedToCreateBookingRoom
    | FailedToCreateVnpayPayment
    | FailedToCommitTransaction
    | FailedToGetBookingHistory
    | InvalidBookingId
    | FailedToCancelBooking
    // internal/error/error_const.go and the admin booking use case
    | BookingNotFound
    | FailedToGetBooking
    | BookingNotCheckedOut
    | ReviewAlreadyExists
    | FailedToCreateReview
    | ReviewCheckFailed
    | BookingHasPaid
    | PaymentNotFound
    | FailedToGetPayment
    | PaymentAlreadyProcessed
    | FailedToUpdatePayment
    | FailedToUpdateBooking
    | FailedToCreateBill
    | FailedToSavePayment
    | StatusLockedCheckedOut
    | StatusLockedCancelled
    | StatusLockedNoShow
    // internal/utils/transaction.go
    | CommitTransactionFailed
    // internal/utils/vnpay.go
    | InvalidAmount
    | AmountExceedsLimit
    | ClientIpEmpty
    | InvalidIpAddress
    | VnpayConfigurationMissing
    // internal/validator/validate.go
    | InvalidFullName
    | InvalidPhoneNumber
    // internal/handler/admin/room_form_parser.go
    | InvalidRequest
    | InvalidPricePerNight
    | InvalidBedNum
    | TooManyImages
    | ImageTooLarge
    | InvalidImageType
    // an error of the database driver, returned as it is
    | DbError(message: string)

  /** The message key each error carries. */
  function Key(e: Error): string
  {
    match e
    case InvalidRoomId => "error.invalid_room_id"
    case RoomIsNotAvailable => "error.room_is_not_available"
    case RoomNotFound => "error.room_not_found"
    case FailedToGetRoomPrice => "error.failed_to_get_room_price"
    case FailedToCreateBooking => "error.failed_to_create_booking"
    case FailedToCreateBookingRoom => "error.failed_to_create_booking_room"
    case FailedToCreateVnpayPayment => "error.failed_to_create_vnpay_payment"
    case FailedToCommitTransaction => "error.failed_to_commit_transaction"
    case FailedToGetBookingHistory => "error.failed_to_get_booking_history"
    case InvalidBookingId => "error.invalid_booking_id"
    case FailedToCancelBooking => "error.failed_to_cancel_booking"
    case BookingNotFound => "error.booking_not_found"
    case FailedToGetBooking => "error.failed_to_get_booking"
    case BookingNotCheckedOut => "error.booking_not_checked_out"
    case ReviewAlreadyExists => "error.review_already_exists"
    case FailedToCreateReview => "error.failed_to_create_review"
    case ReviewCheckFailed => "error.review_check_failed"
    case BookingHasPaid => "error.booking_has_paid"
    case PaymentNotFound => "error.payment_not_found"
    case FailedToGetPayment => "error.failed_to_get_payment"
    case PaymentAlreadyProcessed => "error.payment_already_processed"
    case FailedToUpdatePayment => "error.failed_to_update_payment"
    case FailedToUpdateBooking => "error.failed_to_update_booking"
    case FailedToCreateBill => "error.failed_to_create_bill"
    case FailedToSavePayment => "error.failed_to_save_payment"
    case StatusLockedCheckedOut => "error.failed_to_update_booking_status_because_checked_out"
    case StatusLockedCancelled => "error.failed_to_update_booking_status_because_cancelled"
    case StatusLockedNoShow => "error.failed_to_update_booking_status_because_no_show"
    case CommitTransactionFailed => "error.commit_transaction_failed"
    case InvalidAmount => "error.invalid_amount"
    case AmountExceedsLimit => "error.amount_exceeds_limit"
    case ClientIpEmpty => "error.client_ip_empty"
    case InvalidIpAddress => "error.invalid_ip_address"
    case VnpayConfigurationMissing => "error.vnpay_configuration_missing"
    case InvalidFullName => "error.invalid_full_name"
    case InvalidPhoneNumber => "error.invalid_phone_number"
    case InvalidRequest => "error.invalid_request"
    case InvalidPricePerNight => "error.invalid_price_per_night"
    case InvalidBedNum => "error.invalid_bed_num"
    case TooManyImages => "error.too_many_images"
    case ImageTooLarge => "error.image_too_large"
    case InvalidImageType => "error.invalid_image_type"
    case DbError(message) => message
  }
}
