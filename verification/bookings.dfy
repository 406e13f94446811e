/** The booking record the dashboard receives from the backend, and the
    date formatting used when a booking is shown. */
module Bookings {

  datatype Option<+T> = None | Some(value: T)

  /** The host's `new Date(text)`: None when the parsed time value is NaN,
      otherwise the text `toLocaleDateString()` gives for it. */
  type DateParser = string -> Option<string>

  /** One booking as the backend sends it; every field may be missing. */
  datatype Booking = Booking(
    orderId: Option<string>,
    transactionId: Option<string>,
    customerName: Option<string>,
    customerEmail: Option<string>,
    service: Option<string>,
    favoriteEmployee: Option<string>,
    paymentStatus: Option<string>,
    upiId: Option<string>,
    date: Option<string>,
    amount: Option<int>,
    refundedAmount: Option<int>,
    refundStatus: Option<string>)

  /** JavaScript truthiness of an optional string: present and not empty. */
  predicate Truthy(v: Option<string>) {
    v.Some? && v.value != ""
  }

  /** `formatDate`: "N/A" for a missing, empty or unparseable date, otherwise the locale text. */
  function FormatDate(date: Option<string>, parseDate: DateParser): (r: string)
    ensures !Truthy(date) ==> r == "N/A"
    ensures Truthy(date) && parseDate(date.value).None? ==> r == "N/A"
    ensures Truthy(date) && parseDate(date.value).Some? ==> r == parseDate(date.value).value
    ensures r != "N/A" ==> Truthy(date) && parseDate(date.value) == Some(r)
  {
    if !Truthy(date) then "N/A"
    else match parseDate(date.value)
      case None => "N/A"
      case Some(text) => text
  }

  /** `value || "N/A"`: the text a table cell shows for an optional string. */
  function DisplayText(v: Option<string>): (r: string)
    ensures r != ""
    ensures Truthy(v) ==> r == v.value
    ensures !Truthy(v) ==> r == "N/A"
  {
    if Truthy(v) then v.value else "N/A"
  }
}
