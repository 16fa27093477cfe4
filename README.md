# infinite_fn core, modelled in Dafny

This project models three parts of the `infinite_fn` repository and proves properties about them.

- **The function indexer** (`tests/test_findex.py`).
  - `FunctionIndexer` names a Python function by `<module>.<qualname>`.
  - It refuses names that contain `<locals>`.
  - It stores `sha1(name) -> name` in a dict, which is either its own or one the caller hands in.
  - `get_function` turns a hash back into an object. It imports ever longer dotted prefixes. When an import raises `ModuleNotFoundError`, it imports the previous prefix instead and takes the segment as an attribute. It ends with `getattr` of the last segment.
- **The lodging helpers** (`infinite_fn/python_fns/lodging.py`).
  - The dummy catalogue and lookup by id.
  - Three list filters and two `sorted` calls.
  - The module-level `bookings` list, with booking, cancellation and the per-user query.
- **The trip helpers** (`infinite_fn/python_fns/trip.py`).
  - The module-level `trip_bookings` dict, with booking and cancellation.
  - The list of transportation types.
  - The cost string.

How the model is laid out:

- `wrappers.dfy` holds `Option` and `Result`.
- `strings.dfy` holds the Python string operations the core relies on: `str.split`, `in` on strings, and `str()` of an integer.
  - `Split` is proved inverse to `Join`.
  - `str()` of a natural number is proved to read back as that number.
- `lists.dfy` holds a list comprehension with an `if` clause (`Select`) and `sorted` (`SortBy`).
  - `Select` keeps exactly the chosen elements, in order. No other list does that.
  - `SortBy` is a stable sort. Any sorted, stable arrangement of the input equals it, so the properties do not depend on which stable algorithm Python uses.
- `findex.dfy` models the indexer.
  - Python's import system and `getattr` become an explicit environment `Env`: a set of importable names and an attribute table.
  - SHA-1 is a function parameter.
  - The dict is a `Dict` object. An indexer built on a caller's dict therefore shares it.
  - `get_function` is the source's loop, with its try/except body as the method `Iteration`. It is proved equal to `Resolve`, a specification built from one loop step (`Step`) folded over the segments (`Walk`).
  - The three tests become methods over any module and environment satisfying the test file's setup.
- `lodging.dfy` models the lodging helpers.
  - The random draws of `get_all_lodgings` are a parameter.
  - `bookings` is the sequence field of a `BookingStore` object.
- `trip.dfy` models the trip helpers.
  - `trip_bookings` is the map field of a `TripStore` object.
  - The uuid and the random draws are parameters.

Quirks of the code that the model reproduces:

- **Segments after the first attribute segment are not looked up as attributes.** A fallback leaves `_mod` without a trailing dot. The next segment is then glued on (`m.Outerinner`), and that import fails. The fallback then imports `m.Outer`, which fails as well. So a method of a nested class does not resolve; `NestedClassMethodFails` proves the `ModuleNotFound` error.
- **A first segment that cannot be imported.** The code then calls `import_module("")`. That raises `ValueError`, which the `except ModuleNotFoundError` clause does not catch. This is `EmptyModuleName`; `FirstSegmentNotImportable` proves it.
- **An identifier without a dot.** It leaves `module` unbound, which raises `UnboundLocalError`. This is `ModuleUnbound`; `DotlessIdentifierUnbound` proves it. Only a caller's dict can hold such an entry, because `index_function` always writes a dot.
- **Booking ids.** `book_lodging` derives the id from the current length of the list, so an id can be issued while a booking still carries it.
  - In a list numbered BOOKING0, BOOKING1, ..., cancelling any booking but the last makes the next id equal to the id of the last booking (`NextIdInUse`).
  - Cancelling the last booking frees its id, so the next one is new (`LastCancelledIdFree`).
  - `DuplicateIdAfterCancel` runs the first case on a fresh store and shows that a later cancel by the repeated id removes the older booking.

## Model

| member | source | states |
|---|---|---|
| FunctionIndex.Import | tests/test_findex.py:39 | `import_module(name)` succeeds exactly for a non-empty importable name and returns that module; otherwise it raises `ValueError` for the empty name and `ModuleNotFoundError` for any other |
| FunctionIndex.GetAttr | tests/test_findex.py:46 | `getattr` succeeds exactly when the attribute exists, returns the attribute table's entry, and otherwise raises `AttributeError` for that name |
| FunctionIndex.StripDot | tests/test_findex.py:45 | the fallback import name is `_last_mod` without its trailing dot when there is one, and `_last_mod` itself otherwise |
| FunctionIndex.Resolve | tests/test_findex.py:27-52 | an unknown hash raises the not-found error; any object it returns is `getattr` of the identifier's last segment on some object |
| FunctionIndex.Step | tests/test_findex.py:36-46 | one iteration: `_last_mod` becomes the old `_mod` and `module` is bound whenever it succeeds; an importable `_mod + pt` is imported and `_mod` gains a dot; an empty name raises `ValueError`; only import or attribute errors escape |
| FunctionIndex.Walk | tests/test_findex.py:35-46 | the loop over no segments leaves `module` unbound; after at least one successful iteration it is bound; only import or attribute errors escape it |
| FunctionIndex.Iteration | tests/test_findex.py:36-46 | the loop body, written as the try/except it is, has exactly the outcome `Step` specifies for that segment and state |
| FunctionIndex.Finish | tests/test_findex.py:49-52 | after the loop, a returned object is `getattr(module, parts[-1])` on the bound `module`; an exception from the loop escapes unchanged; an unbound `module` raises `UnboundLocalError` |
| FunctionIndex.WalkSnoc | tests/test_findex.py:35-46 | one more segment is one more loop iteration on the state left by the previous ones, unless an earlier iteration raised |
| FunctionIndex.WalkErrorEscapes | tests/test_findex.py:35-46 | an exception in any iteration ends the whole loop with that exception |
| FunctionIndex.Identifier | tests/test_findex.py:17-19 | the identifier is the module name, a dot, then the qualified name |
| FunctionIndex.IsLocal | tests/test_findex.py:20 | a name is refused as local only if it contains `<` |
| FunctionIndex.FunctionIndexer.constructor | tests/test_findex.py:10-14 | without a dict the indexer gets a fresh empty one; with a dict it keeps that very object, contents included |
| FunctionIndex.FunctionIndexer.IndexFunction | tests/test_findex.py:16-25 | a name containing `<locals>` is refused and the table is unchanged; otherwise the result is `sha1(module.qualname)` and the table gains exactly that entry |
| FunctionIndex.FunctionIndexer.GetFunction | tests/test_findex.py:27-52 | the loop returns exactly `Resolve` on the current table (the unknown-hash error included), and it modifies nothing |
| FunctionIndex.WalkModulePath | tests/test_findex.py:35-40 | over the segments of an importable module name (whose parents are then importable too), every iteration imports; `_mod` ends as the name plus a dot, `_last_mod` as the previous prefix plus a dot, and `module` as the name's module |
| FunctionIndex.WalkModule | tests/test_findex.py:31-40 | the loop over all segments of an importable module name ends bound to that module |
| FunctionIndex.ResolveStored | tests/test_findex.py:28-32 | what `index_function` stored resolves to the walk over all segments but the last, finished with the last segment |
| FunctionIndex.RoundTripModuleFunction | tests/test_findex.py:71-77 | resolving the hash stored for a module-level function `f` of module `m` gives `getattr(m, f)` |
| FunctionIndex.RoundTripMethod | tests/test_findex.py:89-95 | resolving the hash stored for a method `C.f` of module `m` gives `getattr(getattr(m, C), f)`, or the error of `getattr(m, C)` |
| FunctionIndex.WalkTwoAttributes | tests/test_findex.py:43-46 | after one attribute fallback, the next segment's fallback imports `m.Outer` and fails with `ModuleNotFoundError` |
| FunctionIndex.NestedClassMethodFails | tests/test_findex.py:35-46 | resolving a method of a nested class `Outer.Inner.f` raises `ModuleNotFoundError` for `m.Outer` |
| FunctionIndex.NestedFunctionIsLocal | tests/test_findex.py:98-105 | a function defined inside another has `<locals>` in its identifier and is refused |
| FunctionIndex.FirstSegmentNotImportable | tests/test_findex.py:43-45 | when the first segment of a function's module cannot be imported, the fallback imports `""` and raises `ValueError` |
| FunctionIndex.DotlessIdentifierUnbound | tests/test_findex.py:31-35 | a stored identifier without a dot never binds `module`, so resolution raises `UnboundLocalError` |
| FunctionIndex.TestFunctionIndexer | tests/test_findex.py:64-81 | a fresh indexer returns the indexed module function from its hash, and raises for "nonexistenthash" |
| FunctionIndex.TestFunctionIndexerFromClass | tests/test_findex.py:84-95 | a fresh indexer returns the class's method object from the method's hash |
| FunctionIndex.TestFunctionIndexerNested | tests/test_findex.py:98-106 | indexing a nested function raises and leaves the table empty |
| FunctionIndex.IndexTwice | tests/test_findex.py:10-25 | on a caller's dict, indexing twice gives the same answer twice; the second call changes nothing; the caller's dict holds the entry |
| Strings.Split | tests/test_findex.py:31 | `str.split` returns at least one piece, and no piece contains the separator |
| Strings.JoinSplit | tests/test_findex.py:31 | joining the pieces of `split` with the separator gives back the string |
| Strings.SplitJoin | tests/test_findex.py:31 | separator-free pieces, joined and split again, come back unchanged |
| Strings.SplitAppend | tests/test_findex.py:19 | splitting `a + "." + b` gives the pieces of `a` followed by the pieces of `b` |
| Strings.NatToString | infinite_fn/python_fns/lodging.py:17 | `str(n)` is a non-empty run of decimal digits without a leading zero; it starts with `0` only for zero |
| Strings.IntToString | infinite_fn/python_fns/trip.py:63 | `str(i)` contains no newline and no space, and is the digits of `i` when `i` is not negative |
| Strings.ParseNatToString | infinite_fn/python_fns/trip.py:43 | the digits of `str(n)` read back as `n` |
| Strings.NatToStringInjective | infinite_fn/python_fns/lodging.py:126 | different numbers print differently |
| Lists.Select | infinite_fn/python_fns/lodging.py:63 | a comprehension with an `if` clause is a subsequence of its input holding each kept element exactly as often as the input and no other element |
| Lists.SelectUnique | infinite_fn/python_fns/lodging.py:74 | those two properties determine the comprehension's result |
| Lists.SelectAll | infinite_fn/python_fns/lodging.py:85 | a comprehension whose condition every element meets returns its input |
| Lists.SortBy | infinite_fn/python_fns/lodging.py:96 | `sorted(key=..., reverse=...)` is a permutation, ordered by key in the requested direction, that keeps the input order among equal keys |
| Lists.StableSortUnique | infinite_fn/python_fns/lodging.py:107 | every ordered, stable arrangement of the input equals that result |
| Lodgings.LodgeId | infinite_fn/python_fns/lodging.py:17 | every catalogue id starts with `LODGE` followed by at least one character |
| Lodgings.LodgeIdsDistinct | infinite_fn/python_fns/lodging.py:17 | different catalogue positions get different ids |
| Lodgings.GetAllLodgings | infinite_fn/python_fns/lodging.py:5-33 | ten lodgings with ids LODGE0..LODGE9, in order, all at the given location, built from their draws; their ids are pairwise different |
| Lodgings.GetLodgingById | infinite_fn/python_fns/lodging.py:36-51 | None exactly when no LODGE0..LODGE9 id matches; otherwise the London lodging at that position |
| Lodgings.FilterByPrice | infinite_fn/python_fns/lodging.py:63 | exactly the lodgings with `min_price <= price <= max_price`, each as often as in the input, in input order |
| Lodgings.FilterByRating | infinite_fn/python_fns/lodging.py:74 | exactly the lodgings with `rating >= min_rating`, each as often as in the input, in input order |
| Lodgings.FilterByAmenities | infinite_fn/python_fns/lodging.py:85 | exactly the lodgings offering every requested amenity, each as often as in the input, in input order |
| Lodgings.HasAll | infinite_fn/python_fns/lodging.py:85 | every lodging meets an empty request; a lodging without an `amenities` key meets only the empty request |
| Lodgings.NoAmenitiesKeepsAll | infinite_fn/python_fns/lodging.py:85 | an empty request keeps the whole list |
| Lodgings.SortByPrice | infinite_fn/python_fns/lodging.py:88-96 | a permutation of the input, cheapest first when ascending (the default), dearest first otherwise; equal prices keep input order |
| Lodgings.SortByRating | infinite_fn/python_fns/lodging.py:99-107 | a permutation of the input, best rated first by default, worst first when ascending; equal ratings keep input order |
| Lodgings.SortByPriceUnique | infinite_fn/python_fns/lodging.py:96 | any price-ordered, stable arrangement of the input is the price sort's result |
| Lodgings.SortByRatingUnique | infinite_fn/python_fns/lodging.py:107 | any rating-ordered, stable arrangement of the input is the rating sort's result |
| Lodgings.BookingId | infinite_fn/python_fns/lodging.py:126 | every booking id starts with `BOOKING` followed by at least one character |
| Lodgings.BookingIdsDistinct | infinite_fn/python_fns/lodging.py:126 | different numbers give different booking ids |
| Lodgings.RemoveFirst | infinite_fn/python_fns/lodging.py:146-150 | removing by id drops at most one booking |
| Lodgings.RemoveFirstAt | infinite_fn/python_fns/lodging.py:146-149 | removing by id drops exactly the first booking with that id and keeps the rest in order |
| Lodgings.RemoveFirstAbsent | infinite_fn/python_fns/lodging.py:150 | removing an id no booking carries leaves the list unchanged |
| Lodgings.BookingStore.constructor | infinite_fn/python_fns/lodging.py:111 | the list of bookings starts empty |
| Lodgings.BookingStore.BookLodging | infinite_fn/python_fns/lodging.py:114-135 | appends exactly one booking, numbered by the old length and holding the given fields, and returns it; earlier bookings are unchanged |
| Lodgings.BookingStore.CancelBooking | infinite_fn/python_fns/lodging.py:138-150 | returns True exactly when some booking has the id, and removes only the first such booking |
| Lodgings.BookingStore.UserBookings | infinite_fn/python_fns/lodging.py:153-161 | exactly the user's bookings, each as often as in the list, in list order |
| Lodgings.NextIdInUse | infinite_fn/python_fns/lodging.py:126-148 | in a list numbered BOOKING0, BOOKING1, ..., cancelling any booking but the last makes the next issued id equal to the last booking's id |
| Lodgings.LastCancelledIdFree | infinite_fn/python_fns/lodging.py:126-148 | in such a list, cancelling the last booking makes the next issued id one that no booking carries |
| Lodgings.DuplicateIdAfterCancel | infinite_fn/python_fns/lodging.py:126-148 | on a fresh store: book twice, cancel BOOKING0, book again; the new booking repeats BOOKING1, and a cancel of BOOKING1 removes the older booking |
| Trip.Confirmation | infinite_fn/python_fns/trip.py:63 | split into lines, the confirmation is the id, both locations, the type and the cost, each after its label, and nothing else (no date) |
| Trip.CancelReply | infinite_fn/python_fns/trip.py:73-77 | the answer of `cancel_trip`: the id between the label `Booking ID: ` and the suffix ` cancelled.` when found, ` not found.` otherwise |
| Trip.CancelRepliesDiffer | infinite_fn/python_fns/trip.py:73-77 | the "cancelled" and "not found" answers never coincide |
| Trip.TripStore.constructor | infinite_fn/python_fns/trip.py:46 | the trip map starts empty |
| Trip.TripStore.BookTrip | infinite_fn/python_fns/trip.py:49-63 | stores the five-field tuple under the id, changes no other entry, and returns the confirmation |
| Trip.TripStore.CancelTrip | infinite_fn/python_fns/trip.py:66-77 | for a present id: deletes exactly that key and answers "cancelled"; for an absent id: leaves the map unchanged and answers "not found" |
| Trip.BookThenCancelTwice | infinite_fn/python_fns/trip.py:73-77 | booking and then cancelling twice answers "cancelled" and then "not found", and removes only that id |
| Trip.PyIndex | infinite_fn/python_fns/trip.py:29 | Python indexing, negative indices included, returns an element of the list |
| Trip.TypesOfTransportation | infinite_fn/python_fns/trip.py:20-29 | `count` distinct known transportation types: the first `count` of plane, car, bus, train |
| Trip.CostOfTransportation | infinite_fn/python_fns/trip.py:32-43 | ends with a space and then the currency; what comes before reads back as the drawn number and does not start with `0`, so it is the number's decimal form |

## Left out

- SHA-1 is a parameter. The hash is not shown to be 40 hexadecimal digits, and distinct names are not shown to get distinct hashes.
- `print` calls (tests/test_findex.py:22 and 44) are output only.
- Only the import behaviour the loop depends on is modelled: success, `ModuleNotFoundError`, and the `ValueError` for an empty name. The following are not modelled:
  - errors raised while executing a module;
  - relative names;
  - side effects of importing.
  - `WellFormed` assumes Python's rule that a dotted module's parents are importable.
- The tests call the resolved function (for example `retrieved_function() == "Hello, World!"`). The model stops at the object that is returned. Calling Python code is not modelled.
- `get_all_lodgings` takes its random draws as a parameter: the letters, price, rating and amenities of each lodging.
  - Their ranges are not constrained: five uppercase ASCII letters for the name, 50.0..200.0, 1.0..5.0, a non-empty sample of the five amenities.
  - Python's `round` is not modelled.
- `get_lodging_by_id` calls `get_all_lodgings`, whose draws are random. The model passes one set of draws in.
- Lodgings and bookings are values, not shared dict objects. Aliasing between the dicts a caller holds and the ones in `bookings` is not modelled.
- Prices and ratings are `real`. Float rounding and NaN are not modelled.
- A lodging without a `price` or `rating` key would make the filters and sorts raise `KeyError`. The `Lodging` datatype always carries both keys, so this is not modelled.
- `distance_between_two_locations` only returns a random draw, so there is nothing to model beyond the draw.
- The trip booking id comes from `uuid.uuid4()`. It is a parameter of `BookTrip`.
- The random count of `types_of_transportation_between_two_locations` and the random number of `cost_of_transportation_between_two_locations` are parameters.
- `weather.py` is not part of this model. Every function in it is a random generator.
- `main.py` is not part of this model. It is UI wiring and calls to external services.
