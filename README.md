# Parking app: a verified model of the reservation core

This project models the in-memory core of a console parking application:

- a pool of parking spots;
- customers, whose ids come from a process-wide counter;
- time-bounded reservations;
- the three list-backed stores that hold them;
- the controller's start-up, reserve and vacate operations;
- the scheduler tick that completes expired reservations and frees their spots.

The model is imperative where the source is. Spots, customers, reservations and the stores are Dafny classes, and their methods change fields in place. A store's list is a `seq` field that its methods reassign. Objects are shared by reference, as in Java:

- A reservation refers to the very spot object the spot store holds.
- `findAll` hands out a copy of the list, not copies of the objects.

A code path that throws an exception in Java returns a typed error (`Result`, `Outcome`, or a `bool` that reports whether a store's `update` found its entry).

Modules, in dependency order:

| module | models |
|---|---|
| `Wrappers` | `Option`, `Result`, `Outcome` |
| `Sequences` | first-match lookup and order-preserving filtering, the two list shapes the stores use |
| `IdSequencing` | `CustomerIdSequencer`, with Java `int` wrap-around |
| `Customers` | `Customer`, `Vehicle`, and the setter validation, including the phone pattern |
| `CustomerRegistries` | `CustomerDaoImpl` |
| `Spots` | `ParkingSpot` |
| `Reservations` | `Reservation`, its status, and its six-digit decimal id |
| `SpotRegistries` | `ParkingSpotDaoImpl` |
| `ReservationRegistries` | `ReservationDaoImpl` |
| `Scheduling` | `ReservationScheduler.checkAndUpdateReservations` |
| `Controller` | `ParkingController` start-up, `reserveParkingSpot`, `vacateParkingSpot` |

The clock is an integer counted in hours, so a reservation of `hours` hours made at `now` ends at `now + hours`.

The scheduler tick is specified by a value-level function, `Scheduling.Sweep`. Its inputs are the end times, statuses and occupancy flags read through the reservation snapshot. Its output is the new statuses and flags, the positions the tick completed, and whether every spot update found its spot. The heap method `CheckAndUpdateReservations` is proved to leave the following exactly where `Sweep` says:

- the heap;
- the reservation store;
- the spot store.

The store contents are those updates replayed on the old lists. The tick's properties are proved as lemmas about `Sweep`.

Where the documented intent and the code disagree, the model follows the code:

- The intent is that the stores' `create` methods reject a duplicate spot number or reservation id. The code does not: they append.
- The intent is that vacating an already COMPLETED reservation fails and changes nothing. `vacateParkingSpot` checks only that the reservation's spot is occupied. It does not check the reservation's status. A COMPLETED reservation whose spot has since been occupied by a newer reservation is therefore vacated again. This frees the newer reservation's spot, which stays ACTIVE. `Controller.ParkingController.Vacate` states this as written.
- The intent is that the tick treats a failure on one reservation as non-fatal and goes on with the batch. In the code, a spot update that finds no spot throws out of the tick's loop, so the rest of the snapshot is not visited.
- The intent is that reserve and vacate are atomic. The vacate path vacates the spot before the spot store's `update` can fail. On that failure the spot stays vacant while its reservation keeps whatever status it had.
- The intended invariant is "a spot is occupied iff exactly one ACTIVE reservation refers to it". It is not an invariant of the code, and is not claimed.

## Model

| member | source | states |
|---|---|---|
| IdSequencing.Increment | src/main/java/com/markus/parkingapp/dao/sequencer/CustomerIdSequencer.java:13 | `++` on a Java `int` is the two's-complement successor modulo 2^32, and below the maximum it adds one |
| IdSequencing.CustomerIdSequencer.constructor | src/main/java/com/markus/parkingapp/dao/sequencer/CustomerIdSequencer.java:5 | the counter starts at 0 |
| IdSequencing.CustomerIdSequencer.NextId | src/main/java/com/markus/parkingapp/dao/sequencer/CustomerIdSequencer.java:12-14 | the counter is pre-incremented (with wrap-around) and its new value is returned |
| IdSequencing.AfterCalls | src/main/java/com/markus/parkingapp/dao/sequencer/CustomerIdSequencer.java:5-14 | the counter after n calls of `nextId` on a fresh counter, which is also what the n-th call returns |
| IdSequencing.AfterCallsCounts | src/main/java/com/markus/parkingapp/dao/sequencer/CustomerIdSequencer.java:5-14 | up to the `int` maximum, the n-th call on a fresh counter returns n |
| IdSequencing.IdsIncrease | src/main/java/com/markus/parkingapp/dao/sequencer/CustomerIdSequencer.java:12-14 | ids handed out before the wrap are positive and strictly increasing, so distinct |
| IdSequencing.CounterWraps | src/main/java/com/markus/parkingapp/dao/sequencer/CustomerIdSequencer.java:13 | the call after 2^31-1 calls returns the smallest `int` |
| Customers.MatchesPhonePattern | src/main/java/se/lexicon/model/Customer.java:51-52 | a whole-string match of `^\+?[0-9]{10,15}$`: an optional '+' and then 10 to 15 ASCII digits; a match has 10 to 16 characters, so the empty string never matches and the `isEmpty` test before the pattern only selects the error message |
| Customers.PhonePatternLanguage | src/main/java/se/lexicon/model/Customer.java:51-52 | the accepted phone numbers are exactly 10 to 15 ASCII digits, optionally after one leading '+' |
| Customers.DraftError | src/main/java/se/lexicon/model/Customer.java:20-24 | the error of the first setter that refuses, in the constructor's order: name, then phone number (missing before malformed), then vehicle |
| Customers.DraftErrorIffInvalid | src/main/java/se/lexicon/model/Customer.java:20-24 | the three-argument constructor refuses exactly when the name, the phone number or the vehicle is unacceptable |
| Customers.Customer.Unset | src/main/java/se/lexicon/model/Customer.java:7-11 | before any setter runs, the id is unset and the other fields hold placeholders |
| Customers.Customer.Create | src/main/java/se/lexicon/model/Customer.java:20-24 | fails with the first failing setter's error (name, phone, vehicle); otherwise a fresh customer without id, holding exactly the given valid values |
| Customers.Customer.CreateWithId | src/main/java/se/lexicon/model/Customer.java:14-18 | as `Create`, then fails when the id is null; otherwise the customer carries that id |
| Customers.Customer.SetName | src/main/java/se/lexicon/model/Customer.java:43-46 | succeeds iff the name is non-null and non-empty; stores it then, otherwise keeps the old name; no other field changes |
| Customers.Customer.SetPhoneNumber | src/main/java/se/lexicon/model/Customer.java:48-57 | succeeds iff the number is non-empty and matches the pattern, with the missing/malformed error told apart; stores it only on success |
| Customers.Customer.SetId | src/main/java/se/lexicon/model/Customer.java:59-62 | succeeds iff the id is non-null, and stores it only then |
| Customers.Customer.SetVehicle | src/main/java/se/lexicon/model/Customer.java:64-67 | succeeds iff the vehicle is non-null, and stores it only then |
| CustomerRegistries.LookupFindsEach | src/main/java/com/markus/parkingapp/dao/impl/CustomerDaoImpl.java:44-51 | in a store whose ids rise, looking up a stored customer's id finds that very customer |
| CustomerRegistries.AppendKeepsRising | src/main/java/com/markus/parkingapp/dao/impl/CustomerDaoImpl.java:33-40 | appending the counter's successor keeps the id list rising and bounded by the counter, and that id is first found at the new end |
| CustomerRegistries.CustomerRegistry.constructor | src/main/java/com/markus/parkingapp/dao/impl/CustomerDaoImpl.java:16-30 | an empty store with its own counter at 0 |
| CustomerRegistries.CustomerRegistry.Create | src/main/java/com/markus/parkingapp/dao/impl/CustomerDaoImpl.java:33-40 | the customer gets the counter's next id and is appended; no earlier customer's id changes; before the wrap, the store invariant (rising ids up to the counter) is kept and the new id looks up this customer |
| CustomerRegistries.CustomerRegistry.FindById | src/main/java/com/markus/parkingapp/dao/impl/CustomerDaoImpl.java:44-51 | none iff no stored customer has the id, otherwise the first one that has it |
| Sequences.FirstIndex | src/main/java/com/markus/parkingapp/dao/impl/ParkingSpotDaoImpl.java:26-33 | the position a for-each loop with an early return stops at: no earlier match, a match there, and the end exactly when there is no match |
| Spots.ParkingSpot.constructor | src/main/java/se/lexicon/model/ParkingSpot.java:12-15 | the given number and area code, vacant |
| Spots.ParkingSpot.WithOccupancy | src/main/java/se/lexicon/model/ParkingSpot.java:24-27 | the given number, area code and occupancy |
| Spots.ParkingSpot.Occupy | src/main/java/se/lexicon/model/ParkingSpot.java:45-47 | the spot is occupied afterwards, whatever it was |
| Spots.ParkingSpot.Vacate | src/main/java/se/lexicon/model/ParkingSpot.java:53-55 | the spot is vacant afterwards, whatever it was |
| Reservations.DecimalString | src/main/java/com/markus/parkingapp/model/Reservation.java:37 | `String.valueOf` of a non-negative `int`: its decimal digits, most significant first, without leading zeros |
| Reservations.DecimalRoundTrip | src/main/java/com/markus/parkingapp/model/Reservation.java:37 | the decimal string of a number is all digits and reads back as that number |
| Reservations.DecimalInjective | src/main/java/com/markus/parkingapp/model/Reservation.java:37 | distinct id numbers give distinct id strings |
| Reservations.DecimalLength | src/main/java/com/markus/parkingapp/model/Reservation.java:37 | a number between 10^k and 10^(k+1) has k+1 decimal digits |
| Reservations.LeadingDigit | src/main/java/com/markus/parkingapp/model/Reservation.java:37 | the decimal string of a positive number does not start with '0' |
| Reservations.SixDigitId | src/main/java/com/markus/parkingapp/model/Reservation.java:45-48 | every id the generator can draw is six ASCII digits, the first not '0' |
| Reservations.Reservation.constructor | src/main/java/com/markus/parkingapp/model/Reservation.java:35-43 | once the duration check passes: the decimal id, start at `now`, end `hours` later, ACTIVE, the given spot and customer |
| Reservations.Reservation.Create | src/main/java/com/markus/parkingapp/model/Reservation.java:35-43 | fails iff `hours <= 0`; otherwise a fresh ACTIVE reservation whose end lies after its start, for exactly that spot and customer |
| Reservations.Reservation.SetEndTimeByHours | src/main/java/com/markus/parkingapp/model/Reservation.java:55-60 | succeeds iff `hours > 0`, and then sets the end to start plus hours; otherwise the end is kept; the status never changes |
| Reservations.Reservation.Complete | src/main/java/com/markus/parkingapp/model/Reservation.java:84-86 | the status is COMPLETED afterwards and the end time is kept |
| SpotRegistries.Vacant | src/main/java/com/markus/parkingapp/dao/impl/ParkingSpotDaoImpl.java:36-45 | the filter of `findAvailableSpots`: the stored spots that are not occupied, in storage order |
| SpotRegistries.VacantMembers | src/main/java/com/markus/parkingapp/dao/impl/ParkingSpotDaoImpl.java:36-45 | a spot is listed as available iff it is stored and not occupied |
| SpotRegistries.NoneVacant | src/main/java/com/markus/parkingapp/dao/impl/ParkingSpotDaoImpl.java:36-45 | the available list is empty iff every stored spot is occupied |
| SpotRegistries.SpotRegistry.constructor | src/main/java/com/markus/parkingapp/dao/impl/ParkingSpotDaoImpl.java:12 | an empty store |
| SpotRegistries.SpotRegistry.Create | src/main/java/com/markus/parkingapp/dao/impl/ParkingSpotDaoImpl.java:15-18 | the spot is appended, with no duplicate check, and returned |
| SpotRegistries.SpotRegistry.FindAll | src/main/java/com/markus/parkingapp/dao/impl/ParkingSpotDaoImpl.java:21-23 | the same spots in storage order |
| SpotRegistries.SpotRegistry.FindBySpotNumber | src/main/java/com/markus/parkingapp/dao/impl/ParkingSpotDaoImpl.java:26-33 | none iff no spot has the number, otherwise the first that has it |
| SpotRegistries.SpotRegistry.FindAvailableSpots | src/main/java/com/markus/parkingapp/dao/impl/ParkingSpotDaoImpl.java:36-45 | exactly the vacant spots, in storage order |
| SpotRegistries.SpotRegistry.Update | src/main/java/com/markus/parkingapp/dao/impl/ParkingSpotDaoImpl.java:49-63 | succeeds iff a stored spot has the number; then that first spot alone is replaced, otherwise nothing changes |
| SpotRegistries.SpotRegistry.Delete | src/main/java/com/markus/parkingapp/dao/impl/ParkingSpotDaoImpl.java:81-94 | true iff a spot has the number; then the first such spot is removed and the rest keep their order; otherwise nothing changes |
| ReservationRegistries.OfCustomer | src/main/java/se/lexicon/dao/impl/ReservationDaoImpl.java:59-67 | the filter of `findByCustomerId`: the stored reservations whose customer has the id, in storage order |
| ReservationRegistries.OfCustomerMembers | src/main/java/se/lexicon/dao/impl/ReservationDaoImpl.java:59-67 | a reservation is listed for a customer id iff it is stored and its customer has that id |
| ReservationRegistries.ReservationRegistry.constructor | src/main/java/se/lexicon/dao/impl/ReservationDaoImpl.java:13 | an empty store |
| ReservationRegistries.ReservationRegistry.Create | src/main/java/se/lexicon/dao/impl/ReservationDaoImpl.java:16-19 | the reservation is appended, with no duplicate check, and returned |
| ReservationRegistries.ReservationRegistry.FindById | src/main/java/se/lexicon/dao/impl/ReservationDaoImpl.java:22-29 | none iff no reservation has the id, otherwise the first that has it |
| ReservationRegistries.ReservationRegistry.FindAll | src/main/java/se/lexicon/dao/impl/ReservationDaoImpl.java:32-34 | the same reservations in storage order |
| ReservationRegistries.ReservationRegistry.Update | src/main/java/se/lexicon/dao/impl/ReservationDaoImpl.java:38-51 | succeeds iff a stored reservation has the id; then that first one alone is replaced, otherwise nothing changes |
| ReservationRegistries.ReservationRegistry.FindByCustomerId | src/main/java/se/lexicon/dao/impl/ReservationDaoImpl.java:59-67 | exactly the reservations of customers with that id, in storage order |
| Scheduling.ReplayReservations | src/main/java/com/markus/parkingapp/schedule/ReservationScheduler.java:62 | the reservation list after the tick's `update` calls, in order, each replacing the first entry with the same id and leaving the list alone when there is none |
| Scheduling.ReplaySpots | src/main/java/com/markus/parkingapp/schedule/ReservationScheduler.java:67 | the spot list after the tick's `update` calls, in order, each replacing the first spot with the same number and leaving the list alone when there is none |
| Scheduling.ReplayKeepsIds | src/main/java/se/lexicon/dao/impl/ReservationDaoImpl.java:38-51 | any sequence of reservation updates keeps the store's length and the id at every position |
| Scheduling.ReplayKeepsNumbers | src/main/java/com/markus/parkingapp/dao/impl/ParkingSpotDaoImpl.java:49-63 | any sequence of spot updates keeps the store's length and the number at every position |
| Scheduling.ReplayOfStoredReservations | src/main/java/com/markus/parkingapp/schedule/ReservationScheduler.java:62 | with unique ids, updating the store with its own entries leaves it as it was |
| Scheduling.ReplayWithin | src/main/java/com/markus/parkingapp/schedule/ReservationScheduler.java:54-62 | whatever the ids, updating the store with entries of its own snapshot leaves a list whose every entry is one of the snapshot |
| Scheduling.ReplayOfStoredSpots | src/main/java/com/markus/parkingapp/schedule/ReservationScheduler.java:67 | with unique numbers, updating the spot store with spots it holds leaves it as it was |
| Scheduling.Expired | src/main/java/com/markus/parkingapp/schedule/ReservationScheduler.java:59 | the tick's test: the end time lies strictly before `now` and the status is ACTIVE |
| Scheduling.HeapIsCoherent | src/main/java/com/markus/parkingapp/schedule/ReservationScheduler.java:54-57 | end times and statuses read through a snapshot agree wherever two positions hold the same object |
| Scheduling.Sweep | src/main/java/com/markus/parkingapp/schedule/ReservationScheduler.java:52-74 | the tick over a prefix of the snapshot: statuses change only to COMPLETED, and only visited positions are recorded |
| Scheduling.SweepHalts | src/main/java/com/markus/parkingapp/schedule/ReservationScheduler.java:57-67 | after a spot update has failed, nothing later in the snapshot is visited |
| Scheduling.SweepStatuses | src/main/java/com/markus/parkingapp/schedule/ReservationScheduler.java:59-61 | a status changes only when the reservation was expired, and only to COMPLETED |
| Scheduling.SweepVacatesCompleted | src/main/java/com/markus/parkingapp/schedule/ReservationScheduler.java:61-66 | a reservation whose status changed has a vacant spot |
| Scheduling.SweepOccupancy | src/main/java/com/markus/parkingapp/schedule/ReservationScheduler.java:65-66 | occupancy changes only to vacant, and only for spots some expired reservation refers to |
| Scheduling.SweepSucceeds | src/main/java/com/markus/parkingapp/schedule/ReservationScheduler.java:57-67 | while no spot update has failed, every expired reservation visited is COMPLETED and every changed reservation's spot number is registered |
| Scheduling.SweepFails | src/main/java/com/markus/parkingapp/schedule/ReservationScheduler.java:67 | a failed tick met an expired reservation whose spot number is not registered |
| Scheduling.SweepVisitsExpired | src/main/java/com/markus/parkingapp/schedule/ReservationScheduler.java:59 | every position the tick updated held a reservation that was expired at the start |
| Scheduling.SweepQuiet | src/main/java/com/markus/parkingapp/schedule/ReservationScheduler.java:59 | with nothing expired, the tick changes nothing and succeeds |
| Scheduling.TickCompletesExpired | src/main/java/com/markus/parkingapp/schedule/ReservationScheduler.java:57-67 | a tick that succeeds leaves every expired reservation COMPLETED with a vacant spot |
| Scheduling.TickKeepsUnexpired | src/main/java/com/markus/parkingapp/schedule/ReservationScheduler.java:59 | a reservation that is COMPLETED, or whose end is not strictly before `now`, keeps its status |
| Scheduling.TickKeepsUnreferencedSpots | src/main/java/com/markus/parkingapp/schedule/ReservationScheduler.java:65-66 | the tick never occupies a spot, and a spot no expired reservation refers to keeps its occupancy |
| Scheduling.TickFailsIff | src/main/java/com/markus/parkingapp/schedule/ReservationScheduler.java:57-67 | the tick fails iff some expired reservation's spot number is missing from the spot store |
| Scheduling.TickIdempotent | src/main/java/com/markus/parkingapp/schedule/ReservationScheduler.java:52-74 | after a successful tick, a second tick at the same `now` changes nothing |
| Scheduling.TickSettles | src/main/java/com/markus/parkingapp/schedule/ReservationScheduler.java:57-67 | after a tick that succeeds, no reservation of the snapshot is expired at the same `now` |
| Scheduling.SettledWithin | src/main/java/com/markus/parkingapp/schedule/ReservationScheduler.java:59 | a list drawn from a snapshot in which nothing is expired has nothing expired either |
| Scheduling.TickKeepsStoredSpots | src/main/java/com/markus/parkingapp/schedule/ReservationScheduler.java:66-67 | with unique spot numbers, and every expired reservation's spot being a stored one, the spot store ends as it began |
| Scheduling.ReservationScheduler.constructor | src/main/java/com/markus/parkingapp/schedule/ReservationScheduler.java:21-24 | the scheduler works on exactly the two given stores |
| Scheduling.ReservationScheduler.CheckAndUpdateReservations | src/main/java/com/markus/parkingapp/schedule/ReservationScheduler.java:52-74 | the heap's statuses and occupancy, its end times, the outcome and both stores are those `Sweep` gives from the old state; both stores keep their length and keys; the reservation store holds only reservations it held before, and after a tick that succeeds none of them is expired |
| Scheduling.ReservationScheduler.RepeatedTick | src/main/java/com/markus/parkingapp/schedule/ReservationScheduler.java:29-46 | two ticks at the same `now` on the heap, whatever the reservation ids: when the first succeeds the second succeeds too, and the heap and both stores are exactly where a single tick leaves them; with unique ids the reservation list is moreover the one the store started with |
| Scheduling.ReservationScheduler.QuietTick | src/main/java/com/markus/parkingapp/schedule/ReservationScheduler.java:52-74 | a tick over a store in which nothing is expired succeeds and leaves both stores and the stored reservations' end times, statuses and occupancy unchanged |
| Scheduling.ReservationScheduler.TickThrough | src/main/java/com/markus/parkingapp/schedule/ReservationScheduler.java:52-74 | a tick over a store drawn from an older snapshot changes only what a tick over that snapshot may change; when nothing stored is expired it succeeds and leaves both stores and everything read through the snapshot unchanged |
| Scheduling.ReservationScheduler.Run | src/main/java/com/markus/parkingapp/schedule/ReservationScheduler.java:57-73 | the loop, which stops after a failed spot update, ends where `Sweep` over the whole snapshot stands |
| Scheduling.ReservationScheduler.TracksHalts | src/main/java/com/markus/parkingapp/schedule/ReservationScheduler.java:57 | a loop stopped early by a failure stands where the full `Sweep` does |
| Scheduling.ReservationScheduler.Visit | src/main/java/com/markus/parkingapp/schedule/ReservationScheduler.java:59-67 | one pass of the loop is one step of `Sweep`, for the heap and both stores |
| Scheduling.ReservationScheduler.Expire | src/main/java/com/markus/parkingapp/schedule/ReservationScheduler.java:61-67 | the reservation is COMPLETED and its spot vacant; through the snapshot only their positions change; the stores are updated at the first matching key, and the spot update fails iff its number is not stored |
| Scheduling.ReservationScheduler.CompleteIn | src/main/java/com/markus/parkingapp/schedule/ReservationScheduler.java:61-62 | complete and update: only that reservation's positions change status, and the store is updated at its id |
| Scheduling.ReservationScheduler.VacateIn | src/main/java/com/markus/parkingapp/schedule/ReservationScheduler.java:65-67 | vacate and update: only that spot's positions change occupancy, and the update succeeds iff its number is stored |
| Controller.Refusal | src/main/java/com/markus/parkingapp/controller/ParkingController.java:106-161 | the first failing guard of a reserve; no available spot exactly when nothing is vacant, spot not found exactly when spots are available but none has the number |
| Controller.RefusalByOccupancy | src/main/java/com/markus/parkingapp/controller/ParkingController.java:107-161 | the guards in terms of the spots: refused for lack of spots iff all are occupied, as occupied iff the spot with the number is occupied, for the customer iff no customer has the id, admitted iff spot vacant, customer known and hours positive |
| Controller.ParkingController.constructor | src/main/java/com/markus/parkingapp/controller/ParkingController.java:36-48 | the given customer store, new reservation and spot stores, and spots 1 to 10, fresh, vacant, in area 101 |
| Controller.ParkingController.InitializeParkingSpots | src/main/java/com/markus/parkingapp/controller/ParkingController.java:97-101 | ten fresh vacant spots numbered 1 to 10 in the given area are appended after the existing ones |
| Controller.ParkingController.Reserve | src/main/java/com/markus/parkingapp/controller/ParkingController.java:106-174 | fails iff some guard refuses, with that guard's error, and then changes nothing; otherwise a fresh ACTIVE reservation with the drawn id, for that spot and customer, from `now` for `hours` hours, is appended, and the spot is occupied and no longer available |
| Controller.ParkingController.Admit | src/main/java/com/markus/parkingapp/controller/ParkingController.java:107-161 | the guards read against the stores, changing nothing: the first refusal, or the first spot with the number and the first customer with the id |
| Controller.ParkingController.Book | src/main/java/com/markus/parkingapp/controller/ParkingController.java:164-169 | a fresh ACTIVE reservation is appended, and its spot is occupied and written back in place |
| Controller.ParkingController.OccupyStored | src/main/java/com/markus/parkingapp/controller/ParkingController.java:168-169 | the spot is occupied, no longer available, and the spot list is unchanged |
| Controller.ParkingController.VacateStored | src/main/java/com/markus/parkingapp/controller/ParkingController.java:206-207 | the spot is vacant; the update succeeds iff its number is stored, and then the spot is available |
| Controller.ParkingController.Vacate | src/main/java/com/markus/parkingapp/controller/ParkingController.java:183-214 | not found iff no reservation has the id; otherwise refused iff its spot is vacant (changing nothing), a spot-store failure leaves the spot vacant and the status as it was, and success completes the reservation and makes its spot available |
| Controller.ParkingController.Release | src/main/java/com/markus/parkingapp/controller/ParkingController.java:196-209 | the per-case outcome of a vacate once the reservation is found, checking only the spot's occupancy |
| Controller.ParkingController.CompleteStored | src/main/java/com/markus/parkingapp/controller/ParkingController.java:208-209 | the reservation is COMPLETED and the reservation list is unchanged |

## Left out

- The console menu, prompts, `Integer.parseInt`, the message display and `toString`: I/O. The reserve and vacate re-prompt loops become a single attempt that returns the error the console would have shown.
- `Main` and `ConsoleUI`: the I/O shell.
- `ReservationScheduler.startScheduler`: its thread pool and its one-minute timer. Concurrency between the tick and the console is not modelled: each operation runs alone.
- The constructor's `scheduler.startScheduler()` call is not modelled. A tick is a separate call of `CheckAndUpdateReservations`.
- `LocalDateTime.now()` is a parameter. The tick reads one `now` for the whole pass, where Java reads the clock again at each reservation.
- `Random` in `generateRandomNumber` becomes the caller-supplied `idNumber`, required to lie in the range the generator draws from.
- The singleton `CustomerDaoImpl.getInstance()` and the static counter become one explicitly constructed store owning its counter, passed to the controller's constructor.
- Null arguments: the setters take `Option` values. Null spot numbers, area codes, reservations and ids passed to the stores are not modelled.
- Getters are field reads.
- `Vehicle` is a value with no validation, because only its null checks exist.
- `Customers.Customer.Create`: the object is built by `Unset` with placeholder fields before the setters run, where Java fills them from null. The placeholders are never observable on success.
- `Scheduling.TickKeepsUnexpired`: requires `Coherent`, satisfied by any snapshot read from the heap (`HeapIsCoherent`).
- `Scheduling.TickIdempotent`: requires `Coherent`, and is stated on `Sweep` values. Its heap-level form is `Scheduling.ReservationScheduler.RepeatedTick`, which holds for any ids. Only its claim that the reservation list ends as it began needs unique ids: with duplicate ids the first tick's updates can replace one entry by another with the same id.
- `Controller.ParkingController.Reserve`: requires every stored customer to have an id. Java's `findById` otherwise unboxes a null. `CustomerDaoImpl.create`, modelled by `CustomerRegistries.CustomerRegistry.Create`, always sets one.
- `CustomerRegistries.CustomerRegistry.FindById`: requires every stored customer to have an id. `CustomerDaoImpl.create`, modelled by `CustomerRegistries.CustomerRegistry.Create`, always sets one; Java otherwise unboxes a null.
- `ReservationRegistries.ReservationRegistry.FindByCustomerId`: requires every stored reservation's customer to have an id. Java's `getId().equals` otherwise dereferences a null.
- `CustomerRegistries.CustomerRegistry.Create`: the store invariant is promised only while the 32-bit counter has not wrapped and the customer is not already stored. After the wrap, ids repeat (`CounterWraps`).
