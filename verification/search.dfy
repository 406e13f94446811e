/** `filteredBookings`: the booking list, newest first, narrowed to the
    bookings whose searchable fields contain the filter text, ignoring
    (ASCII) case. */
module Search {
  import opened Text
  import opened Bookings

  /** The text the search projects for the date: `booking.date ? new Date(booking.date).toLocaleDateString() : ""`.
      An unparseable date prints as "Invalid Date", which is what `toLocaleDateString` gives for a NaN time value. */
  function DateSearchText(date: Option<string>, parseDate: DateParser): (r: Option<string>)
    ensures !Truthy(date) ==> !Truthy(r)
    ensures r.Some?
    ensures Truthy(date) && parseDate(date.value).None? ==> r == Some("Invalid Date")
    ensures Truthy(date) && parseDate(date.value).Some? ==> r == Some(parseDate(date.value).value)
  {
    if !Truthy(date) then Some("")
    else match parseDate(date.value)
      case None => Some("Invalid Date")
      case Some(text) => Some(text)
  }

  /** `amount?.toString()`: missing stays missing, a number becomes its decimal text. */
  function AmountText(amount: Option<int>): (r: Option<string>)
    ensures amount.None? <==> r.None?
    ensures amount.Some? ==> Truthy(r) && SignedDecimalValue(r.value) == amount.value
  {
    match amount
    case None => None
    case Some(n) =>
      IntDecimalRoundTrip(n);
      Some(IntToDecimal(n))
  }

  /** The eleven values the search looks at, in the order of the source's array. */
  function SearchFields(b: Booking, parseDate: DateParser): (r: seq<Option<string>>)
    ensures |r| == 11
    ensures r[7].Some? && (Truthy(r[7]) ==> Truthy(b.date))
    ensures Truthy(r[8]) <==> b.amount.Some?
    ensures Truthy(r[9]) <==> b.refundedAmount.Some?
  {
    [b.transactionId, b.customerName, b.customerEmail, b.service, b.favoriteEmployee,
     b.paymentStatus, b.upiId, DateSearchText(b.date, parseDate),
     AmountText(b.amount), AmountText(b.refundedAmount), b.refundStatus]
  }

  /** The per-value test of `.some(...)`: the value is truthy and, lower-cased, includes the lower-cased filter. */
  predicate FieldMatches(v: Option<string>, filterText: string) {
    Truthy(v) && Contains(Lower(v.value), Lower(filterText))
  }

  /** The `.some(...)` over the eleven values: a booking matches only if it has searchable text, and with the
      empty filter exactly then. */
  predicate Matches(b: Booking, filterText: string, parseDate: DateParser): (m: bool)
    ensures m ==> HasSearchableText(b, parseDate)
    ensures filterText == "" ==> (m <==> HasSearchableText(b, parseDate))
  {
    assert Lower("") == "";
    exists v :: v in SearchFields(b, parseDate) && FieldMatches(v, filterText)
  }

  /** At least one searchable value is present and not empty. */
  predicate HasSearchableText(b: Booking, parseDate: DateParser) {
    exists v :: v in SearchFields(b, parseDate) && Truthy(v)
  }

  /** `[...bookings].reverse()`: a reversed copy. */
  function Reverse<T>(s: seq<T>): (r: seq<T>)
    ensures |r| == |s|
    ensures forall k :: 0 <= k < |s| ==> r[k] == s[|s| - 1 - k]
  {
    if s == [] then [] else Reverse(s[1..]) + [s[0]]
  }

  /** `.filter(...)`: the matching bookings of s, in their order in s. */
  function Keep(s: seq<Booking>, filterText: string, parseDate: DateParser): (r: seq<Booking>)
    ensures |r| <= |s|
    ensures forall b :: b in r ==> b in s && Matches(b, filterText, parseDate)
  {
    if s == [] then []
    else if Matches(s[0], filterText, parseDate) then [s[0]] + Keep(s[1..], filterText, parseDate)
    else Keep(s[1..], filterText, parseDate)
  }

  /** `filteredBookings`. */
  function FilterBookings(bookings: seq<Booking>, filterText: string, parseDate: DateParser): (r: seq<Booking>)
    ensures |r| <= |bookings|
    ensures forall b :: b in r ==> b in bookings && Matches(b, filterText, parseDate)
  {
    ReverseSameElements(bookings);
    Keep(Reverse(bookings), filterText, parseDate)
  }

  /** a is obtained from b by deleting elements: a subsequence that keeps relative order. */
  predicate IsSubsequence<T(==)>(a: seq<T>, b: seq<T>)
    decreases |b|
  {
    a == [] || (b != [] && ((a[0] == b[0] && IsSubsequence(a[1..], b[1..])) || IsSubsequence(a, b[1..])))
  }

  lemma {:induction false} KeepIsSubsequence(s: seq<Booking>, filterText: string, parseDate: DateParser)
    ensures IsSubsequence(Keep(s, filterText, parseDate), s)
    decreases |s|
  {
    if s != [] {
      KeepIsSubsequence(s[1..], filterText, parseDate);
      var r := Keep(s, filterText, parseDate);
      if Matches(s[0], filterText, parseDate) {
        assert r[0] == s[0] && r[1..] == Keep(s[1..], filterText, parseDate);
      }
    }
  }

  /** Every booking is kept exactly as many times as it occurs, if it matches, and not at all otherwise. */
  lemma {:induction false} KeepCounts(s: seq<Booking>, filterText: string, parseDate: DateParser, b: Booking)
    ensures multiset(Keep(s, filterText, parseDate))[b] == if Matches(b, filterText, parseDate) then multiset(s)[b] else 0
    decreases |s|
  {
    if s != [] {
      KeepCounts(s[1..], filterText, parseDate, b);
      assert s == [s[0]] + s[1..];
    }
  }

  /** The filtered list is the reversed list with exactly the non-matching bookings deleted:
      an order-keeping subsequence that holds each matching booking as often as the input does. */
  lemma FilterIsReversedSubsequence(bookings: seq<Booking>, filterText: string, parseDate: DateParser)
    ensures IsSubsequence(FilterBookings(bookings, filterText, parseDate), Reverse(bookings))
    ensures |FilterBookings(bookings, filterText, parseDate)| <= |bookings|
    ensures forall b :: multiset(FilterBookings(bookings, filterText, parseDate))[b]
                        == if Matches(b, filterText, parseDate) then multiset(bookings)[b] else 0
  {
    var rev := Reverse(bookings);
    KeepIsSubsequence(rev, filterText, parseDate);
    assert multiset(rev) == multiset(bookings) by { ReverseMultiset(bookings); }
    forall b ensures multiset(Keep(rev, filterText, parseDate))[b]
                     == if Matches(b, filterText, parseDate) then multiset(bookings)[b] else 0 {
      KeepCounts(rev, filterText, parseDate, b);
    }
  }

  lemma {:induction false} ReverseMultiset<T>(s: seq<T>)
    ensures multiset(Reverse(s)) == multiset(s)
    decreases |s|
  {
    if s != [] {
      ReverseMultiset(s[1..]);
      assert s == [s[0]] + s[1..];
    }
  }

  /** A booking is in the filtered list iff it is in the input and matches. */
  lemma FilterMembership(bookings: seq<Booking>, filterText: string, parseDate: DateParser, b: Booking)
    ensures b in FilterBookings(bookings, filterText, parseDate) <==> b in bookings && Matches(b, filterText, parseDate)
  {
    FilterIsReversedSubsequence(bookings, filterText, parseDate);
    assert b in bookings <==> multiset(bookings)[b] > 0;
  }

  /** Missing values and empty strings never match, whatever the filter. */
  lemma FalsyFieldsNeverMatch(v: Option<string>, filterText: string)
    requires !Truthy(v)
    ensures !FieldMatches(v, filterText)
  {
  }

  /** A booking whose searchable values are all missing or empty is dropped by every filter, even the empty one. */
  lemma BlankBookingNeverMatches(b: Booking, filterText: string, parseDate: DateParser)
    requires !HasSearchableText(b, parseDate)
    ensures !Matches(b, filterText, parseDate)
  {
  }

  /** A booking with an amount always has searchable text: `0` is printed as "0", which is truthy. */
  lemma AmountMakesSearchable(b: Booking, parseDate: DateParser)
    requires b.amount.Some? || b.refundedAmount.Some?
    ensures Matches(b, "", parseDate)
  {
    var fields := SearchFields(b, parseDate);
    if b.amount.Some? {
      assert fields[8] in fields && FieldMatches(fields[8], "");
    } else {
      assert fields[9] in fields && FieldMatches(fields[9], "");
    }
  }

  /** A booking with an unparseable date is found by the filter "invalid", because its date searches as "Invalid Date". */
  lemma InvalidDateIsFoundByInvalid(b: Booking, parseDate: DateParser)
    requires Truthy(b.date) && parseDate(b.date.value).None?
    ensures Matches(b, "invalid", parseDate)
  {
    var v := DateSearchText(b.date, parseDate);
    assert v == Some("Invalid Date");
    assert IsPrefix(Lower("invalid"), Lower("Invalid Date"));
    assert v in SearchFields(b, parseDate) && FieldMatches(v, "invalid");
  }

  /** The filter ignores the case of the filter text. */
  lemma MatchesIgnoresFilterCase(b: Booking, filterText: string, parseDate: DateParser)
    ensures Matches(b, filterText, parseDate) <==> Matches(b, Lower(filterText), parseDate)
  {
    LowerIdempotent(filterText);
  }

  lemma {:induction false} KeepAll(s: seq<Booking>, filterText: string, parseDate: DateParser)
    requires forall b :: b in s ==> Matches(b, filterText, parseDate)
    ensures Keep(s, filterText, parseDate) == s
    decreases |s|
  {
    if s != [] {
      KeepAll(s[1..], filterText, parseDate);
    }
  }

  lemma ReverseSameElements<T>(s: seq<T>)
    ensures forall x :: x in Reverse(s) <==> x in s
  {
    ReverseMultiset(s);
    assert forall x :: x in Reverse(s) <==> x in multiset(Reverse(s));
  }

  /** When every booking matches, the filtered list is the whole list, newest first. */
  lemma FilterAllMatching(bookings: seq<Booking>, filterText: string, parseDate: DateParser)
    requires forall b :: b in bookings ==> Matches(b, filterText, parseDate)
    ensures FilterBookings(bookings, filterText, parseDate) == Reverse(bookings)
  {
    ReverseSameElements(bookings);
    KeepAll(Reverse(bookings), filterText, parseDate);
  }

  /** With the empty filter and no blank bookings, the filtered list is the whole list, newest first. */
  lemma EmptyFilterShowsAllReversed(bookings: seq<Booking>, parseDate: DateParser)
    requires forall b :: b in bookings ==> HasSearchableText(b, parseDate)
    ensures FilterBookings(bookings, "", parseDate) == Reverse(bookings)
  {
    FilterAllMatching(bookings, "", parseDate);
  }

  /** A filter that no booking matches gives the empty list. */
  lemma NoMatchGivesEmpty(bookings: seq<Booking>, filterText: string, parseDate: DateParser)
    requires forall b :: b in bookings ==> !Matches(b, filterText, parseDate)
    ensures FilterBookings(bookings, filterText, parseDate) == []
  {
    var r := FilterBookings(bookings, filterText, parseDate);
    if r != [] {
      FilterMembership(bookings, filterText, parseDate, r[0]);
      assert false;
    }
  }

  /** A non-matching booking at the end of the list does not change what `.filter` keeps. */
  lemma {:induction false} KeepAppendMiss(s: seq<Booking>, b: Booking, filterText: string, parseDate: DateParser)
    requires !Matches(b, filterText, parseDate)
    ensures Keep(s + [b], filterText, parseDate) == Keep(s, filterText, parseDate)
    decreases |s|
  {
    if s != [] {
      assert (s + [b])[1..] == s[1..] + [b];
      KeepAppendMiss(s[1..], b, filterText, parseDate);
    }
  }

  /** A non-matching booking at the front of the list does not change the filtered list. */
  lemma FilterDropsFirstMiss(b: Booking, rest: seq<Booking>, filterText: string, parseDate: DateParser)
    requires !Matches(b, filterText, parseDate)
    ensures FilterBookings([b] + rest, filterText, parseDate) == FilterBookings(rest, filterText, parseDate)
  {
    assert Reverse([b] + rest) == Reverse(rest) + [b] by {
      assert ([b] + rest)[1..] == rest;
    }
    KeepAppendMiss(Reverse(rest), b, filterText, parseDate);
  }
}
