/** The lodging helpers: the dummy catalogue (with its random draws as inputs), the
    list filters and sorts, and the module-level list of bookings. */
module Lodgings {
  import opened Wrappers
  import opened Strings
  import opened Lists

  /** One lodging dictionary. `amenities` is None when the dictionary has no
      'amenities' key. */
  datatype Lodging = Lodging(
    id: string, name: string, location: string,
    price: real, rating: real, amenities: Option<seq<string>>)

  /** What `random` produced for one catalogue entry: the five name letters, the
      price, the rating and the sampled amenities. */
  datatype LodgingDraw = LodgingDraw(letters: string, price: real, rating: real, amenities: seq<string>)

  const CatalogueSize := 10

  /** `f'LODGE{i}'` */
  function LodgeId(i: nat): (id: string)
    ensures |id| > 5 && id[..5] == "LODGE"
  {
    "LODGE" + NatToString(i)
  }

  /** The i-th catalogue entry built from its draw. */
  function NewLodging(i: nat, location: string, d: LodgingDraw): Lodging
  {
    Lodging(LodgeId(i), "Lodge-" + d.letters, location, d.price, d.rating, Some(d.amenities))
  }

  /** Different catalogue positions get different ids. */
  lemma LodgeIdsDistinct(i: nat, j: nat)
    requires i != j
    ensures LodgeId(i) != LodgeId(j)
  {
    if LodgeId(i) == LodgeId(j) {
      assert LodgeId(i)[5..] == NatToString(i);
      assert LodgeId(j)[5..] == NatToString(j);
      NatToStringInjective(i, j);
    }
  }

  /** `get_all_lodgings(location)`: ten lodgings LODGE0 .. LODGE9 at `location`, in order. */
  method GetAllLodgings(location: string, draws: seq<LodgingDraw>) returns (lodgings: seq<Lodging>)
    requires |draws| == CatalogueSize
    ensures |lodgings| == CatalogueSize
    ensures forall i :: 0 <= i < |lodgings| ==> lodgings[i] == NewLodging(i, location, draws[i])
    ensures forall i, j :: 0 <= i < j < |lodgings| ==> lodgings[i].id != lodgings[j].id
  {
    lodgings := [];
    for i := 0 to CatalogueSize
      invariant |lodgings| == i
      invariant forall k :: 0 <= k < i ==> lodgings[k] == NewLodging(k, location, draws[k])
    {
      lodgings := lodgings + [NewLodging(i, location, draws[i])];
    }
    forall i, j | 0 <= i < j < |lodgings|
      ensures lodgings[i].id != lodgings[j].id
    {
      LodgeIdsDistinct(i, j);
    }
  }

  /** `get_lodging_by_id(lodging_id)`: the first London lodging with that id, if any. */
  method GetLodgingById(lodgingId: string, draws: seq<LodgingDraw>) returns (r: Option<Lodging>)
    requires |draws| == CatalogueSize
    ensures r.None? <==> forall i :: 0 <= i < CatalogueSize ==> LodgeId(i) != lodgingId
    ensures forall i :: 0 <= i < CatalogueSize && LodgeId(i) == lodgingId ==>
      r == Some(NewLodging(i, "London", draws[i]))
  {
    var all := GetAllLodgings("London", draws);
    for i := 0 to |all|
      invariant forall k :: 0 <= k < i ==> all[k].id != lodgingId
    {
      if all[i].id == lodgingId {
        forall k | 0 <= k < CatalogueSize && LodgeId(k) == lodgingId
          ensures k == i
        {
          if k != i {
            LodgeIdsDistinct(k, i);
          }
        }
        return Some(all[i]);
      }
    }
    assert forall k :: 0 <= k < CatalogueSize ==> all[k].id == LodgeId(k);
    return None;
  }

  /** `filter_lodgings_by_price`: the lodgings priced within `[minPrice, maxPrice]`, in order. */
  function FilterByPrice(lodgings: seq<Lodging>, minPrice: real, maxPrice: real): (r: seq<Lodging>)
    ensures IsSubseq(r, lodgings)
    ensures forall l :: multiset(r)[l] == if minPrice <= l.price <= maxPrice then multiset(lodgings)[l] else 0
    ensures forall l :: l in r <==> l in lodgings && minPrice <= l.price <= maxPrice
  {
    Select(lodgings, (l: Lodging) => minPrice <= l.price <= maxPrice)
  }

  /** `filter_lodgings_by_rating`: the lodgings rated at least `minRating`, in order. */
  function FilterByRating(lodgings: seq<Lodging>, minRating: real): (r: seq<Lodging>)
    ensures IsSubseq(r, lodgings)
    ensures forall l :: multiset(r)[l] == if l.rating >= minRating then multiset(lodgings)[l] else 0
    ensures forall l :: l in r <==> l in lodgings && l.rating >= minRating
  {
    Select(lodgings, (l: Lodging) => l.rating >= minRating)
  }

  /** `all(a in lodging.get('amenities', []) for a in wanted)`. An empty request is met by
      every lodging; a lodging without an 'amenities' key meets only the empty request. */
  predicate HasAll(l: Lodging, wanted: seq<string>): (ok: bool)
    ensures wanted == [] ==> ok
    ensures l.amenities.None? ==> (ok <==> wanted == [])
  {
    assert wanted != [] ==> wanted[0] in wanted;
    forall a :: a in wanted ==> a in l.amenities.GetOr([])
  }

  /** `filter_lodgings_by_amenities`: the lodgings offering every wanted amenity, in order. */
  function FilterByAmenities(lodgings: seq<Lodging>, wanted: seq<string>): (r: seq<Lodging>)
    ensures IsSubseq(r, lodgings)
    ensures forall l :: multiset(r)[l] == if HasAll(l, wanted) then multiset(lodgings)[l] else 0
    ensures forall l :: l in r <==> l in lodgings && HasAll(l, wanted)
  {
    Select(lodgings, l => HasAll(l, wanted))
  }

  /** Asking for no amenity keeps every lodging. */
  lemma NoAmenitiesKeepsAll(lodgings: seq<Lodging>)
    ensures FilterByAmenities(lodgings, []) == lodgings
  {
    SelectAll(lodgings, l => HasAll(l, []));
  }

  function Price(l: Lodging): real { l.price }

  function Rating(l: Lodging): real { l.rating }

  /** `sort_lodgings_by_price(lodgings, ascending=True)`: a permutation ordered by price,
      cheapest first when ascending; equal prices keep their input order. */
  function SortByPrice(lodgings: seq<Lodging>, ascending: bool := true): (r: seq<Lodging>)
    ensures multiset(r) == multiset(lodgings)
    ensures forall i, j :: 0 <= i < j < |r| ==>
      if ascending then r[i].price <= r[j].price else r[i].price >= r[j].price
    ensures Stable(r, lodgings, Price)
  {
    SortBy(lodgings, Price, !ascending)
  }

  /** `sort_lodgings_by_rating(lodgings, ascending=False)`: a permutation ordered by rating,
      best first by default; equal ratings keep their input order. */
  function SortByRating(lodgings: seq<Lodging>, ascending: bool := false): (r: seq<Lodging>)
    ensures multiset(r) == multiset(lodgings)
    ensures forall i, j :: 0 <= i < j < |r| ==>
      if ascending then r[i].rating <= r[j].rating else r[i].rating >= r[j].rating
    ensures Stable(r, lodgings, Rating)
  {
    SortBy(lodgings, Rating, !ascending)
  }

  /** Whatever stable sort `sorted` uses, its price ordering is this one. */
  lemma SortByPriceUnique(lodgings: seq<Lodging>, ascending: bool, r: seq<Lodging>)
    requires forall i, j :: 0 <= i < j < |r| ==>
      if ascending then r[i].price <= r[j].price else r[i].price >= r[j].price
    requires Stable(r, lodgings, Price)
    ensures r == SortByPrice(lodgings, ascending)
  {
    assert SortedBy(r, Price, !ascending);
    StableSortUnique(lodgings, r, Price, !ascending);
  }

  /** Whatever stable sort `sorted` uses, its rating ordering is this one. */
  lemma SortByRatingUnique(lodgings: seq<Lodging>, ascending: bool, r: seq<Lodging>)
    requires forall i, j :: 0 <= i < j < |r| ==>
      if ascending then r[i].rating <= r[j].rating else r[i].rating >= r[j].rating
    requires Stable(r, lodgings, Rating)
    ensures r == SortByRating(lodgings, ascending)
  {
    assert SortedBy(r, Rating, !ascending);
    StableSortUnique(lodgings, r, Rating, !ascending);
  }

  /** One booking dictionary. */
  datatype Booking = Booking(id: string, lodgingId: string, userId: string, startDate: string, endDate: string)

  /** `f'BOOKING{n}'` */
  function BookingId(n: nat): (id: string)
    ensures |id| > 7 && id[..7] == "BOOKING"
  {
    "BOOKING" + NatToString(n)
  }

  predicate HasId(s: seq<Booking>, id: string)
  {
    exists i :: 0 <= i < |s| && s[i].id == id
  }

  /** The list after `del` of its first booking with id `id`; unchanged when there is none. */
  function RemoveFirst(s: seq<Booking>, id: string): (r: seq<Booking>)
    ensures |r| <= |s| <= |r| + 1
    decreases |s|
  {
    if |s| == 0 then []
    else if s[0].id == id then s[1..]
    else [s[0]] + RemoveFirst(s[1..], id)
  }

  /** Different numbers give different booking ids. */
  lemma BookingIdsDistinct(i: nat, j: nat)
    requires i != j
    ensures BookingId(i) != BookingId(j)
  {
    if BookingId(i) == BookingId(j) {
      assert BookingId(i)[7..] == NatToString(i);
      assert BookingId(j)[7..] == NatToString(j);
      NatToStringInjective(i, j);
    }
  }

  /** RemoveFirst drops exactly the element at the first index carrying the id. */
  lemma {:induction false} RemoveFirstAt(s: seq<Booking>, id: string, i: nat)
    requires i < |s| && s[i].id == id
    requires forall k :: 0 <= k < i ==> s[k].id != id
    ensures RemoveFirst(s, id) == s[..i] + s[i + 1..]
    decreases i
  {
    if i > 0 {
      var t := s[1..];
      assert s[0].id != id;
      assert RemoveFirst(s, id) == [s[0]] + RemoveFirst(t, id);
      RemoveFirstAt(t, id, i - 1);
      assert t[..i - 1] + t[i..] == s[1..i] + s[i + 1..];
      assert s[..i] + s[i + 1..] == [s[0]] + (s[1..i] + s[i + 1..]);
    }
  }

  /** Without a booking carrying the id, RemoveFirst leaves the list as it is. */
  lemma {:induction false} RemoveFirstAbsent(s: seq<Booking>, id: string)
    requires forall k :: 0 <= k < |s| ==> s[k].id != id
    ensures RemoveFirst(s, id) == s
    decreases |s|
  {
    if |s| > 0 {
      RemoveFirstAbsent(s[1..], id);
      assert s == [s[0]] + s[1..];
    }
  }

  /** In a list numbered BOOKING0, BOOKING1, ... in order, cancelling any booking but the
      last makes the next `book_lodging` issue the id the last booking still carries. */
  lemma NextIdInUse(s: seq<Booking>, j: nat)
    requires forall k :: 0 <= k < |s| ==> s[k].id == BookingId(k)
    requires j + 1 < |s|
    ensures var after := RemoveFirst(s, BookingId(j));
      |after| == |s| - 1 && after[|after| - 1].id == BookingId(|after|)
  {
    forall k | 0 <= k < j
      ensures s[k].id != BookingId(j)
    {
      BookingIdsDistinct(k, j);
    }
    RemoveFirstAt(s, BookingId(j), j);
    var after := s[..j] + s[j + 1..];
    assert |after| == |s| - 1;
    assert after[|after| - 1] == s[|s| - 1];
    assert s[|s| - 1].id == BookingId(|s| - 1);
  }

  /** Cancelling the last booking of such a list frees its id: the next one issued is not in use. */
  lemma LastCancelledIdFree(s: seq<Booking>)
    requires forall k :: 0 <= k < |s| ==> s[k].id == BookingId(k)
    requires |s| > 0
    ensures var after := RemoveFirst(s, BookingId(|s| - 1));
      |after| == |s| - 1 && forall k :: 0 <= k < |after| ==> after[k].id != BookingId(|after|)
  {
    forall k | 0 <= k < |s| - 1
      ensures s[k].id != BookingId(|s| - 1)
    {
      BookingIdsDistinct(k, |s| - 1);
    }
    RemoveFirstAt(s, BookingId(|s| - 1), |s| - 1);
    var after := s[..|s| - 1] + s[|s|..];
    assert after == s[..|s| - 1];
  }

  /** The module-level `bookings` list. */
  class BookingStore {
    var bookings: seq<Booking>

    constructor ()
      ensures bookings == []
    {
      bookings := [];
    }

    /** `book_lodging`: appends a booking numbered by the current length and returns it. */
    method BookLodging(lodgingId: string, userId: string, startDate: string, endDate: string)
      returns (b: Booking)
      modifies this
      ensures b == Booking(BookingId(|old(bookings)|), lodgingId, userId, startDate, endDate)
      ensures bookings == old(bookings) + [b]
    {
      b := Booking(BookingId(|bookings|), lodgingId, userId, startDate, endDate);
      bookings := bookings + [b];
    }

    /** `cancel_booking`: deletes the first booking with the id and reports whether there was one. */
    method CancelBooking(bookingId: string) returns (cancelled: bool)
      modifies this
      ensures cancelled <==> HasId(old(bookings), bookingId)
      ensures bookings == RemoveFirst(old(bookings), bookingId)
    {
      for i := 0 to |bookings|
        invariant bookings == old(bookings)
        invariant forall k :: 0 <= k < i ==> bookings[k].id != bookingId
      {
        if bookings[i].id == bookingId {
          RemoveFirstAt(bookings, bookingId, i);
          bookings := bookings[..i] + bookings[i + 1..];
          return true;
        }
      }
      RemoveFirstAbsent(bookings, bookingId);
      return false;
    }

    /** `get_user_bookings`: the user's bookings, in list order. */
    function UserBookings(userId: string): (r: seq<Booking>)
      reads this
      ensures IsSubseq(r, bookings)
      ensures forall b :: multiset(r)[b] == if b.userId == userId then multiset(bookings)[b] else 0
      ensures forall b :: b in r <==> b in bookings && b.userId == userId
    {
      Select(bookings, (b: Booking) => b.userId == userId)
    }
  }

  /** Booking ids come from the current length: after BOOKING0 is cancelled, the next booking
      repeats BOOKING1, and a later cancel by that id removes the older booking. */
  method DuplicateIdAfterCancel(lodgingId: string, user: string, otherUser: string, startDate: string, endDate: string)
    returns (first: Booking, second: Booking, third: Booking, remaining: seq<Booking>)
    ensures first.id == BookingId(0) && second.id == BookingId(1)
    ensures third.id == second.id && third.userId == otherUser
    ensures remaining == [third]
  {
    var store := new BookingStore();
    first := store.BookLodging(lodgingId, user, startDate, endDate);
    second := store.BookLodging(lodgingId, user, startDate, endDate);
    var cancelled := store.CancelBooking(BookingId(0));
    third := store.BookLodging(lodgingId, otherUser, startDate, endDate);
    cancelled := store.CancelBooking(BookingId(1));
    remaining := store.bookings;
  }
}
