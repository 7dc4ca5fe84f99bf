/**
 * The customer's bookings page: the status badge colour and the two
 * render conditions (no bookings yet; a special-requirements line).
 */
module Bookings {
  import opened Wrappers
  import opened Text

  const PendingClasses := "bg-yellow-100 text-yellow-800"
  const InProgressClasses := "bg-blue-100 text-blue-800"
  const CompletedClasses := "bg-green-100 text-green-800"
  const DefaultClasses := "bg-gray-100 text-gray-800"

  /** The badge classes for a status, chosen by its lower-cased form; gray for anything else. */
  function StatusColor(status: string): (c: string)
    ensures c == PendingClasses <==> Lower(status) == "pending"
    ensures c == InProgressClasses <==> Lower(status) == "in progress"
    ensures c == CompletedClasses <==> Lower(status) == "completed"
    ensures c == DefaultClasses <==>
      Lower(status) != "pending" && Lower(status) != "in progress" && Lower(status) != "completed"
  {
    var key := Lower(status);
    if key == "pending" then PendingClasses
    else if key == "in progress" then InProgressClasses
    else if key == "completed" then CompletedClasses
    else DefaultClasses
  }

  /** The colour depends on the status only through its lower-cased form. */
  lemma StatusColorOfLower(status: string)
    ensures StatusColor(Lower(status)) == StatusColor(status)
  {
    LowerIdempotent(status);
  }

  /** The statuses as the pages spell them, capitalised, get their colours. */
  lemma PendingIsYellow()
    ensures StatusColor("Pending") == PendingClasses
  {
  }

  lemma InProgressIsBlue()
    ensures StatusColor("In Progress") == InProgressClasses
  {
  }

  lemma CompletedIsGreen()
    ensures StatusColor("Completed") == CompletedClasses
  {
  }

  /** Capitals do not matter: "PENDING" is yellow. */
  lemma ShoutedPendingIsYellow()
    ensures StatusColor("PENDING") == PendingClasses
  {
  }

  /** A booking as the list shows it. */
  datatype BookingRecord = BookingRecord(
    id: string,
    designId: string,
    designName: string,
    customerName: string,
    phone: string,
    status: string,
    bookingDate: string,
    measurements: map<string, string>,
    extraRequirements: string)

  /** One booking's card: its badge and, when present, the special-requirements line. */
  datatype Card = Card(
    bookingId: string,
    title: string,
    badgeClass: string,
    badgeText: string,
    requirementsLine: Option<string>)

  /** Either the "no bookings yet" message, or one card per booking. */
  datatype View = EmptyState | CardList(cards: seq<Card>)

  function CardFor(b: BookingRecord): (c: Card)
    ensures c.bookingId == b.id && c.title == b.designName && c.badgeText == b.status
    ensures c.badgeClass == StatusColor(b.status)
    ensures c.requirementsLine.Some? <==> b.extraRequirements != ""
    ensures c.requirementsLine.Some? ==> c.requirementsLine.value == b.extraRequirements
  {
    Card(b.id, b.designName, StatusColor(b.status), b.status,
      if b.extraRequirements != "" then Some(b.extraRequirements) else None)
  }

  /** `bookings.map(...)`: one card per booking, in list order. */
  function Cards(bookings: seq<BookingRecord>): (cs: seq<Card>)
    ensures |cs| == |bookings|
    ensures forall i :: 0 <= i < |bookings| ==> cs[i] == CardFor(bookings[i])
  {
    if bookings == [] then [] else [CardFor(bookings[0])] + Cards(bookings[1..])
  }

  /** The page body: the empty-state message exactly when there are no bookings. */
  function Render(bookings: seq<BookingRecord>): (v: View)
    ensures v.EmptyState? <==> |bookings| == 0
    ensures v.CardList? ==> v.cards == Cards(bookings)
    ensures v.CardList? ==> |v.cards| == |bookings|
    ensures v.CardList? ==> forall i :: 0 <= i < |bookings| ==>
      && v.cards[i].badgeClass == StatusColor(bookings[i].status)
      && (v.cards[i].requirementsLine.Some? <==> bookings[i].extraRequirements != "")
  {
    if |bookings| == 0 then EmptyState else CardList(Cards(bookings))
  }
}
