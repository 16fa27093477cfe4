/** The trip helpers: the module-level map of trip bookings, and the transportation
    list and cost with their random draws as inputs. */
module Trip {
  import opened Wrappers
  import opened Strings

  /** The tuple `(location1, location2, transportation_type, cost, date)` stored per booking. */
  datatype TripBooking = TripBooking(
    location1: string, location2: string, transportationType: string, cost: int, date: string)

  /** A line without a newline, then a newline, then the rest: the line comes off first. */
  lemma SplitLine(line: string, rest: string)
    requires '\n' !in line
    ensures Split(line + "\n" + rest, '\n') == [line] + Split(rest, '\n')
  {
    SplitAppend(line, rest, '\n');
    SplitNoSep(line, '\n');
  }

  /** Five newline-free lines joined by newlines split back into those lines. */
  lemma SplitFiveLines(l0: string, l1: string, l2: string, l3: string, l4: string)
    requires '\n' !in l0 && '\n' !in l1 && '\n' !in l2 && '\n' !in l3 && '\n' !in l4
    ensures Split(l0 + "\n" + (l1 + "\n" + (l2 + "\n" + (l3 + "\n" + l4))), '\n') == [l0, l1, l2, l3, l4]
  {
    SplitNoSep(l4, '\n');
    var r3 := l3 + "\n" + l4;
    SplitLine(l3, l4);
    assert Split(r3, '\n') == [l3, l4];
    var r2 := l2 + "\n" + r3;
    SplitLine(l2, r3);
    assert Split(r2, '\n') == [l2, l3, l4];
    var r1 := l1 + "\n" + r2;
    SplitLine(l1, r2);
    assert Split(r1, '\n') == [l1, l2, l3, l4];
    SplitLine(l0, r1);
  }

  /** The text `book_trip` returns. Split into lines, it gives back the id, both locations,
      the type and the cost, each after its label, and nothing else: no date. */
  function Confirmation(bookingId: string, location1: string, location2: string,
                        transportationType: string, cost: int): (msg: string)
    ensures '\n' !in bookingId && '\n' !in location1 && '\n' !in location2 && '\n' !in transportationType ==>
      Split(msg, '\n') == ["Booking ID: " + bookingId, "Location 1: " + location1, "Location 2: " + location2,
                           "Transportation Type: " + transportationType, "Cost: " + IntToString(cost)]
  {
    var l0, l1, l2 := "Booking ID: " + bookingId, "Location 1: " + location1, "Location 2: " + location2;
    var l3, l4 := "Transportation Type: " + transportationType, "Cost: " + IntToString(cost);
    var text := l0 + "\n" + (l1 + "\n" + (l2 + "\n" + (l3 + "\n" + l4)));
    if '\n' !in bookingId && '\n' !in location1 && '\n' !in location2 && '\n' !in transportationType then
      assert '\n' !in l0 && '\n' !in l1 && '\n' !in l2 && '\n' !in l3 && '\n' !in l4;
      SplitFiveLines(l0, l1, l2, l3, l4);
      text
    else
      text
  }

  /** What `cancel_trip` answers: `f"Booking ID: {booking_id} cancelled."` when the id was
      found, `f"Booking ID: {booking_id} not found."` otherwise. The id sits between the
      12-character label and the 11-character suffix. */
  function CancelReply(bookingId: string, found: bool): (msg: string)
    ensures |msg| == |bookingId| + 23
    ensures msg[..12] == "Booking ID: " && msg[12..|msg| - 11] == bookingId
    ensures msg[|msg| - 11..] == if found then " cancelled." else " not found."
  {
    "Booking ID: " + bookingId + (if found then " cancelled." else " not found.")
  }

  /** The two cancellation answers never coincide. */
  lemma CancelRepliesDiffer(a: string, b: string)
    ensures CancelReply(a, true) != CancelReply(b, false)
  {
  }

  /** The module-level `trip_bookings` dict. */
  class TripStore {
    var trips: map<string, TripBooking>

    constructor ()
      ensures trips == map[]
    {
      trips := map[];
    }

    /** `book_trip`, with the fresh uuid passed in as `bookingId`: stores the tuple under
        the id (replacing any entry already there) and returns the confirmation. */
    method BookTrip(location1: string, location2: string, transportationType: string, cost: int,
                    date: string, bookingId: string) returns (msg: string)
      modifies this
      ensures trips == old(trips)[bookingId := TripBooking(location1, location2, transportationType, cost, date)]
      ensures msg == Confirmation(bookingId, location1, location2, transportationType, cost)
    {
      trips := trips[bookingId := TripBooking(location1, location2, transportationType, cost, date)];
      msg := Confirmation(bookingId, location1, location2, transportationType, cost);
    }

    /** `cancel_trip`: deletes the id's entry if there is one and says which case it was. */
    method CancelTrip(bookingId: string) returns (msg: string)
      modifies this
      ensures bookingId in old(trips) ==> trips == old(trips) - {bookingId} && msg == CancelReply(bookingId, true)
      ensures bookingId !in old(trips) ==> trips == old(trips) && msg == CancelReply(bookingId, false)
    {
      if bookingId in trips {
        trips := trips - {bookingId};
        msg := CancelReply(bookingId, true);
      } else {
        msg := CancelReply(bookingId, false);
      }
    }
  }

  /** Booking then cancelling twice: the first cancel succeeds and removes the entry,
      the second reports the id as not found; every other booking is untouched. */
  method BookThenCancelTwice(store: TripStore, location1: string, location2: string,
                             transportationType: string, cost: int, date: string, bookingId: string)
    returns (confirmation: string, first: string, second: string)
    modifies store
    ensures first == CancelReply(bookingId, true) && second == CancelReply(bookingId, false)
    ensures store.trips == old(store.trips) - {bookingId}
  {
    confirmation := store.BookTrip(location1, location2, transportationType, cost, date, bookingId);
    first := store.CancelTrip(bookingId);
    second := store.CancelTrip(bookingId);
  }

  const TransportationTypes: seq<string> := ["car", "bus", "train", "plane"]

  /** Python's `xs[k]`, where a negative `k` counts from the end. */
  function PyIndex<T>(xs: seq<T>, k: int): (x: T)
    requires -|xs| <= k < |xs|
    ensures x in xs
  {
    if k < 0 then xs[|xs| + k] else xs[k]
  }

  /** `types_of_transportation_between_two_locations`, with `random.randint(1, 4)` passed in
      as `count`: `[transportation_types[x - 1] for x in range(count)]`. The first index is -1,
      so the list starts with the last type. */
  function TypesOfTransportation(location1: string, location2: string, count: int): (r: seq<string>)
    requires 1 <= count <= |TransportationTypes|
    ensures |r| == count
    ensures forall i :: 0 <= i < |r| ==> r[i] in TransportationTypes
    ensures forall i, j :: 0 <= i < j < |r| ==> r[i] != r[j]
    ensures r == ["plane", "car", "bus", "train"][..count]
  {
    seq(count, x requires 0 <= x < count => PyIndex(TransportationTypes, x - 1))
  }

  /** `cost_of_transportation_between_two_locations`, with `random.randint(1, 1000)` passed in
      as `draw`: the number in decimal, a space, then the currency. */
  function CostOfTransportation(location1: string, location2: string, transportationType: string,
                                draw: int, currency: string := "$"): (r: string)
    requires 1 <= draw <= 1000
    ensures |r| >= |currency| + 2
    ensures r[|r| - |currency|..] == currency && r[|r| - |currency| - 1] == ' '
    ensures ParseNat(r[..|r| - |currency| - 1]) == Some(draw)
    ensures r[0] != '0'
  {
    var digits := NatToString(draw);
    var r := digits + " " + currency;
    ParseNatToString(draw);
    assert |r| - |currency| - 1 == |digits|;
    assert r[..|digits|] == digits;
    assert r[|r| - |currency|..] == currency;
    assert r[0] == digits[0];
    assert r == IntToString(draw) + " " + currency;
    r
  }
}
