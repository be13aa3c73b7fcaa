# Orders: a verified model

This project models a small order-management system written in Python. The
system has two packages.

- **company.orders** is a layered application:
  - a domain of users, products, order lines and orders;
  - sqlite repositories that save these entities and find orders in a time range;
  - an `OrderService` whose `batch_insert` ingests parsed JSON-line records.
- **meiro.orders** is an earlier draft of the domain. Its orders hold a
  non-empty set of product ids.

Python's raised exceptions become values of a `Result` or `Outcome` datatype.
Their kinds are `ValueError`, `DomainError`, `ConflictError` and `TypeError`.

## Modules

- **`Wrappers`, `Failures`** (`wrappers.dfy`): `Option`, `Result`, `Outcome` and the exceptions.
- **`Collections`** (`collections.dfy`): the behaviour of `frozenset` and `Counter` on sequences.
  - `Dedup` keeps the first occurrences.
  - `Count` gives the count of `Counter`.
- **`CompanyShared`, `CompanyCommon`**: the entity base, `Name` and `flatten`.
  - Entities are equal when they have the same concrete type and the same identifier.
  - Hashing goes by `(type, identifier)`.
- **`CompanyDomain`**: the entities as immutable datatypes, and their validating constructors.
- **`CompanyStorage`**: the sqlite connection becomes a `Database` object with four tables.
  - The tables are `seq` fields that the repositories' `Save` methods append to.
  - `Exists` is a function that reads the tables.
  - `find_between` is a pipeline: join, stable sort by id, `groupby` on adjacent rows, and one order per group.
- **`CompanyService`**: the `OrderService` class.
  - `batch_insert` is an imperative method with nested loops.
  - It is proved against `Ingest`, a function that replays the same steps over the tables as values.
- **`CompanyServiceProperties`**: what a batch guarantees, stated over `Ingest`.
- **`MeiroShared`, `MeiroDomain`**: the meiro entity base and domain.
  - The base includes the text form `TypeName(id=<id>)` and its parser.

## Model

| member | source | states |
|---|---|---|
| Collections.Dedup | src/company/orders/_domain.py:154 | the frozenset of a sequence: no element twice, and exactly the elements of the input |
| Collections.DedupOfDistinct | src/company/orders/_domain.py:154 | freezing a sequence without repetitions keeps it unchanged |
| Collections.Count | src/company/orders/_service.py:120 | `Counter(s)[x]` is at most `len(s)`, and positive exactly when `x` occurs in `s` |
| Collections.SumCountsSnoc | src/company/orders/_service.py:120 | appending one element raises the summed counts by one exactly when the element is a key |
| Collections.CountsSumToLength | src/company/orders/_service.py:118-121 | the counts of a Counter over its keys add up to the length of the list it counted |
| CompanyShared.NewEntity | src/company/orders/_shared.py:70-75 | the `identifier` property returns the value given to `__init__` |
| CompanyShared.EqualsIsEquivalence | src/company/orders/_shared.py:77-78 | `__eq__` (same concrete type and equal identifiers) is reflexive, symmetric and transitive |
| CompanyShared.HashAgreesWithEquals | src/company/orders/_shared.py:80-81 | entities are equal exactly when their hashed `(type, identifier)` tuples are equal |
| CompanyShared.DifferentTypesUnequal | src/company/orders/_shared.py:77-78 | entities of different concrete types are never equal, in either direction |
| CompanyShared.MakeName | src/company/orders/_shared.py:38-44 | as written, `Name(value)` accepts every string, because the check is never called |
| CompanyShared.EmptyNameAccepted | src/company/orders/_shared.py:42-44 | `Name("")` is accepted as written |
| CompanyCommon.FlattenLength | src/company/orders/_common.py:42-48 | the flattened list is as long as all inner lists together; `flatten([])` is `[]` |
| CompanyCommon.FlattenAppend | src/company/orders/_common.py:42-48 | flattening distributes over concatenation of the outer list |
| CompanyCommon.FlattenIndex | src/company/orders/_common.py:42-48 | item `j` of inner list `i` sits at the offset of that list plus `j`, so the order is kept |
| CompanyCommon.FlattenMember | src/company/orders/_common.py:42-48 | an item is in the flattened list exactly when it is in one of the inner lists |
| CompanyCommon.MakeName | src/company/orders/_common.py:93-99 | `Name(value)` raises `ValueError` exactly for the empty string and otherwise keeps the value |
| CompanyDomain.NewUser | src/company/orders/_domain.py:43-48 | `ValueError` exactly for a negative identifier; otherwise the user keeps the identifier, name and city |
| CompanyDomain.User.ChangeName | src/company/orders/_domain.py:67-73 | the constructor applied to the same identifier and city and the new name; it cannot raise |
| CompanyDomain.User.ChangeCity | src/company/orders/_domain.py:75-81 | the constructor applied to the same identifier and name and the new city; it cannot raise |
| CompanyDomain.NewProduct | src/company/orders/_domain.py:92-102 | `ValueError` exactly for a negative identifier; otherwise the product keeps its fields |
| CompanyDomain.NewOrder | src/company/orders/_domain.py:140-154 | raises `ValueError` for a negative identifier, checked first, and for a line with quantity below 1; otherwise the order keeps its identifier, user and creation time, and its line set is the set of the given lines |
| CompanyDomain.NewOrderAsWritten | src/company/orders/_domain.py:140-154 | as written, only a negative identifier is refused; the line set is the set of the given lines |
| CompanyDomain.ZeroQuantityAcceptedAsWritten | tests/test_domain.py:93-110 | a line of quantity 0 passes the constructor as written; the corrected constructor refuses quantities 0 and -1 |
| CompanyDomain.UserIdentity | tests/test_domain.py:12-25 | users are equal exactly when their identifiers are, whatever their names and cities; equal users hash equal |
| CompanyDomain.ProductIdentity | tests/test_domain.py:33-46 | products are equal exactly when their identifiers are; equal products hash equal |
| CompanyDomain.OrderIdentity | tests/test_domain.py:57-90 | orders are equal exactly when their identifiers are, whatever their user, time and lines |
| CompanyDomain.DifferentEntitiesUnequal | src/company/orders/_shared.py:77-78 | a user, a product and an order are never equal to each other |
| CompanyDomain.ChangesKeepIdentity | src/company/orders/_domain.py:64-81 | a renamed or moved user equals the original and hashes like it |
| CompanyDomain.DomainExamples | tests/test_domain.py:12-46 | the concrete cases of the domain tests; negative identifiers raise; an order line's quantity defaults to 1 |
| CompanyDomain.LineOrderIrrelevant | src/company/orders/_domain.py:154 | orders built from lines with one set succeed together and have the same line set |
| CompanyDomain.LineSetExamples | src/company/orders/_domain.py:119-126 | two equal lines collapse into one; lines for one product with different quantities stay apart |
| CompanyStorage.OrderRows | src/company/orders/_storage.py:113-116 | one `(identifier, user_id, created)` row per order, in argument order |
| CompanyStorage.LineRowsOf | src/company/orders/_storage.py:119-123 | one `(order id, product_id, quantity)` row per line of the order, in line order |
| CompanyStorage.LineRowsPerOrder | src/company/orders/_storage.py:119-125 | one inner list of line rows per order, in argument order |
| CompanyStorage.Database.constructor | src/company/orders/_storage.py:30-33 | a fresh schema holds four empty tables |
| CompanyStorage.UserRepository.Save | src/company/orders/_storage.py:60-65 | appends exactly the user's row to `users`, leaves the other tables unchanged, and the user then exists |
| CompanyStorage.UserRepository.Exists | src/company/orders/_storage.py:70-74 | true exactly when some `users` row has the identifier |
| CompanyStorage.ProductRepository.Save | src/company/orders/_storage.py:85-90 | appends exactly the product's row to `products` and leaves the other tables unchanged |
| CompanyStorage.ProductRepository.Exists | src/company/orders/_storage.py:95-99 | true exactly when some `products` row has the identifier |
| CompanyStorage.OrderRepository.Save | src/company/orders/_storage.py:110-126 | appends the orders' rows to `orders` and their flattened line rows to `order_lines`; `users` and `products` are unchanged |
| CompanyStorage.OrderRepository.Exists | src/company/orders/_storage.py:131-136 | true exactly when some `orders` row has the identifier |
| CompanyStorage.OrderRepository.FindBetween | src/company/orders/_storage.py:138-168 | over the current tables, yields only orders created within `[since, till]`, in ascending id order |
| CompanyStorage.LineRowsCount | src/company/orders/_storage.py:119-126 | a bulk save writes as many line rows as the orders have lines together |
| CompanyStorage.SumLengthsPerOrder | src/company/orders/_storage.py:119-125 | the per-order lists are as long as the orders' lines |
| CompanyStorage.LineRowsAppend | src/company/orders/_storage.py:119-126 | the line rows of two batches are those of the first followed by those of the second |
| CompanyStorage.LineRowsMember | src/company/orders/_storage.py:119-126 | a row is written exactly when it is the row of a line of one of the orders |
| CompanyStorage.InsertById | src/company/orders/_storage.py:149 | inserting into rows sorted by id keeps them sorted and adds exactly that row |
| CompanyStorage.SortedCons | src/company/orders/_storage.py:149 | a row no greater than every row of a sorted list can be put in front of it |
| CompanyStorage.SortById | src/company/orders/_storage.py:149 | `order by o.id` yields a permutation of the rows, sorted by order id |
| CompanyStorage.GroupByKey | src/company/orders/_storage.py:158 | `groupby`: the groups laid end to end give back the rows; no group is empty; every row of a group has the group's key; neighbouring groups have different keys; the first group has the first row's key |
| CompanyStorage.LinesOfGroup | src/company/orders/_storage.py:163-166 | one `OrderLine(product_id, quantity)` per row of the group, in row order |
| CompanyStorage.BuildOrders | src/company/orders/_storage.py:158-168 | one order per group in group order when every group builds; otherwise the error of the first group that fails, all groups before it having built |
| CompanyStorage.BuildOrder | src/company/orders/_storage.py:159-167 | a group builds exactly when its id is non-negative and all its quantities are positive (see Left out), and the order carries the group's id, user and time |
| CompanyStorage.Join | src/company/orders/_storage.py:146-151 | the rows of the inner join; `JoinMember`, `JoinSource` and `JoinContains` state that it holds exactly the in-range pairings of an order row with its line rows |
| CompanyStorage.FindBetweenRows | src/company/orders/_storage.py:146-168 | the query over the tables as values; `FindBetweenInRange`, `FindBetweenAscending`, `FindBetweenJoined`, `FindBetweenComplete` and `FindBetweenLines` state what it yields |
| CompanyStorage.MatchLinesMember | src/company/orders/_storage.py:146-149 | a joined row of one order row is exactly that order row paired with one of its line rows |
| CompanyStorage.JoinMember | src/company/orders/_storage.py:146-149 | a row is in the join exactly when it pairs an order row created in range with one of its line rows |
| CompanyStorage.JoinSource | src/company/orders/_storage.py:146-149 | every row of the sorted join comes from a stored order row in range and a stored line row of that order |
| CompanyStorage.JoinContains | src/company/orders/_storage.py:146-149 | every order row in range, paired with one of its line rows, appears in the sorted join |
| CompanyStorage.UngroupMember | src/company/orders/_storage.py:158 | a row is among the grouped rows exactly when it is in one of the groups |
| CompanyStorage.GroupByKeyStep | src/company/orders/_storage.py:158 | the head row joins the first group when the keys agree and opens a new group otherwise |
| CompanyStorage.TailKeepsOrder | src/company/orders/_storage.py:149 | dropping the head row keeps the rows sorted, and keeps the id determining the key |
| CompanyStorage.AdjacentGrow | src/company/orders/_storage.py:158 | growing the first group keeps neighbouring ids ordered |
| CompanyStorage.AdjacentOpen | src/company/orders/_storage.py:158 | a new first group whose id is no greater than the next one keeps neighbouring ids ordered |
| CompanyStorage.GroupIdsAdjacent | src/company/orders/_storage.py:149-158 | over rows sorted by id, neighbouring groups have ascending ids, strictly so when the id determines the key |
| CompanyStorage.IdsChain | src/company/orders/_storage.py:149-158 | neighbours in order make the whole group list ordered |
| CompanyStorage.GroupIdsIncrease | src/company/orders/_storage.py:149-158 | over rows sorted by id the group ids ascend, strictly when the id determines the key |
| CompanyStorage.GroupIdUnique | src/company/orders/_storage.py:158 | under strictly ascending ids, each id heads at most one group |
| CompanyStorage.GroupCollects | src/company/orders/_storage.py:149-158 | over sorted rows whose id determines the key, a group holds exactly the rows with its id |
| CompanyStorage.KeyByIdOfJoin | src/company/orders/_storage.py:146-149 | when stored order ids are distinct, a joined row's id determines its `(id, created, user_id)` key |
| CompanyStorage.GroupOrder | src/company/orders/_storage.py:158-168 | the `k`-th yielded order carries its group's id, user and time, and the lines of the group; it is a stored order row in range that has a line row |
| CompanyStorage.BuiltIds | src/company/orders/_storage.py:159-161 | each built order carries the id of its group's key |
| CompanyStorage.FindBetweenInRange | src/company/orders/_storage.py:146-149 | every yielded order was created within `[since, till]`, both ends included |
| CompanyStorage.GroupIdsOfJoin | src/company/orders/_storage.py:146-158 | the query's groups ascend by id, strictly over a table with distinct ids |
| CompanyStorage.FindBetweenAscending | src/company/orders/_storage.py:146-168 | orders are yielded in ascending id order, strictly (each id once) when the stored ids are distinct |
| CompanyStorage.FindBetweenJoined | src/company/orders/_storage.py:146-149 | every yielded order is a stored order row with at least one line row: the query is an inner join |
| CompanyStorage.FindBetweenComplete | src/company/orders/_storage.py:146-168 | every stored order in range that has a line row is yielded |
| CompanyStorage.FindBetweenLines | src/company/orders/_storage.py:158-166 | with distinct stored ids, a yielded order's line set is exactly its stored line rows |
| CompanyStorage.GroupLines | src/company/orders/_storage.py:158-166 | a group's lines are exactly the stored line rows of its id |
| CompanyStorage.FindBetweenSucceeds | src/company/orders/_storage.py:159-167 | over stored ids that are not negative and quantities that are positive, rebuilding the orders raises nothing |
| CompanyStorage.GroupBuilds | src/company/orders/_storage.py:158-167 | over tables with non-negative ids and positive quantities, every group of the query builds an order |
| CompanyStorage.BatchIdUnique | src/company/orders/_storage.py:110-116 | within a batch of distinct ids, an id names one order |
| CompanyStorage.RowIdUnique | src/company/orders/_storage.py:131-136 | within a table of distinct ids, an id names one row |
| CompanyStorage.SaveKeepsDistinct | src/company/orders/_storage.py:110-116 | saving a batch of new, distinct ids keeps the `orders` ids distinct |
| CompanyStorage.SavedLines | src/company/orders/_storage.py:117-126 | after a fresh save, the stored lines of one of its orders are exactly that order's line set |
| CompanyStorage.SaveThenFind | src/company/orders/_storage.py:110-168 | round trip: after a fresh batch is saved, a query over a range holding one of its orders that has lines succeeds and yields it back with its user, time and line set |
| CompanyStorage.SavedRows | src/company/orders/_storage.py:113-116 | after a save, the `orders` table holds each order's row; ids stay non-negative |
| CompanyStorage.SavedLineRows | src/company/orders/_storage.py:117-126 | a save of valid orders writes only positive quantities |
| CompanyStorage.FindStored | src/company/orders/_storage.py:146-168 | over a well-formed store, a stored order in range with a line row is yielded with its user, time and stored lines |
| CompanyStorage.StoredRowById | src/company/orders/_storage.py:131-136 | in a table of distinct ids, two rows with one id are the same row |
| CompanyStorage.SaveWithoutLinesNotFound | src/company/orders/_storage.py:110-149 | an order saved without lines is never yielded, because the inner join drops it |
| CompanyStorage.NoLineRows | src/company/orders/_storage.py:117-126 | a fresh save writes no line row for an order without lines |
| CompanyStorage.NoLinesNotFound | src/company/orders/_storage.py:146-149 | an id without line rows is never yielded |
| CompanyService.IdsOf | src/company/orders/_service.py:119 | the identifiers of the products, in list order |
| CompanyService.Tally | src/company/orders/_service.py:118-121 | one line per key, with the key as product id and its count as quantity |
| CompanyService.Collapse | src/company/orders/_service.py:118-121 | the lines a record's products collapse into; `CompanyServiceProperties.CollapseLines` and `CollapseTotal` state one positive-quantity line per distinct product, naming exactly the listed products, with quantities summing to the number of products |
| CompanyService.SaveUser | src/company/orders/_service.py:100-101 | the guarded save of a user; `CompanyServiceProperties.SaveUserGrows` states it only appends, stores the user and keeps ids distinct |
| CompanyService.SaveProduct | src/company/orders/_service.py:112-113 | the guarded save of a product; `CompanyServiceProperties.SaveProductGrows` states the same for products |
| CompanyService.SaveProducts | src/company/orders/_service.py:105-115 | the loop over a record's products, stopping at the first that raises; `SaveProductsOutcome` and `SaveProductsTables` state its result |
| CompanyService.Step | src/company/orders/_service.py:94-132 | one record of the batch; `StepOutcome`, `StepStores` and `StepGrows` state its three outcomes and the tables it leaves |
| CompanyService.Ingest | src/company/orders/_service.py:93-132 | the loop over the records up to the first that raises; `BatchInsert` is proved to follow it, and `IngestSuccess`, `IngestSucceedsIff`, `IngestConflict` and `ConflictKeepsSaved` state what it gives |
| CompanyService.SaveProductsStops | src/company/orders/_service.py:105-115 | once a product raises, the rest of the product list is never looked at |
| CompanyService.IngestStops | src/company/orders/_service.py:93-132 | once a record raises, the rest of the batch is never looked at |
| CompanyService.OrderService.constructor | src/company/orders/_service.py:59-69 | the service keeps the three repositories it is given |
| CompanyService.OrderService.BatchInsert | src/company/orders/_service.py:79-136 | the `users` and `products` tables end as `Ingest` says, including on failure (no rollback); on an error the order tables are untouched and the error comes out; otherwise all orders are saved in one bulk save |
| CompanyService.OrderService.InsertRecord | src/company/orders/_service.py:94-132 | one record, after the orders collected so far: the new user and products are saved, and the record's order (appended to those orders) or its error is returned, as `Step` says |
| CompanyService.OrderService.SaveNewProducts | src/company/orders/_service.py:105-115 | the inner loop saves each new product and collects all of them up to the first that raises, as `SaveProducts` says |
| CompanyServiceProperties.TallyTotal | src/company/orders/_service.py:118-121 | the quantities of the tallied lines add up to the summed counts of the keys |
| CompanyServiceProperties.CollapseLines | src/company/orders/_service.py:118-121 | one line per distinct listed product, each with its count as a positive quantity; the lines name exactly the listed products |
| CompanyServiceProperties.CollapseTotal | src/company/orders/_service.py:118-121 | no listed product is lost: the quantities add up to the number listed |
| CompanyServiceProperties.CollapseExample | src/company/orders/_service.py:118-121 | products `[7, 3, 7]` become the lines `(7, 2)` then `(3, 1)` |
| CompanyServiceProperties.ExampleKeys | src/company/orders/_service.py:120 | the keys of `Counter([7, 3, 7])` are 7 then 3, in first-seen order |
| CompanyServiceProperties.ExampleCounts | src/company/orders/_service.py:120 | `Counter([7, 3, 7])` counts 7 twice and 3 once |
| CompanyServiceProperties.SaveUserGrows | src/company/orders/_service.py:100-101 | saving a user when new only appends, the user is then stored, and ids stay distinct |
| CompanyServiceProperties.SaveProductGrows | src/company/orders/_service.py:112-113 | saving a product when new only appends, the product is then stored, and ids stay distinct |
| CompanyServiceProperties.RecordIds | src/company/orders/_service.py:106-108 | the ids of the product records, in list order |
| CompanyServiceProperties.NonNegativeIdsIff | src/company/orders/_service.py:106-111 | no product record has a negative id, in the form the product loop checks it |
| CompanyServiceProperties.SaveProductsFacts | src/company/orders/_service.py:105-115 | the product loop fails (with `ValueError`) exactly when some product id is negative; the table only grows and keeps distinct ids; without failure the loop collects every listed product, and each is stored |
| CompanyServiceProperties.SaveProductsOutcome | src/company/orders/_service.py:105-115 | the product loop raises `ValueError` exactly when some product id is negative; otherwise it collects one product per record, in list order |
| CompanyServiceProperties.SaveProductsTables | src/company/orders/_service.py:112-114 | the `products` table only grows and keeps distinct ids, and once the loop gets through every listed product is stored |
| CompanyServiceProperties.StepGrows | src/company/orders/_service.py:94-132 | a step's tables and collected orders extend those before it, and get no duplicate id |
| CompanyServiceProperties.StepTables | src/company/orders/_service.py:94-115 | when the user can be built, a step's tables are the user and product saves applied to the earlier tables |
| CompanyServiceProperties.IngestGrows | src/company/orders/_service.py:93-132 | over a batch the tables and collected orders only grow, and get no duplicate ids |
| CompanyServiceProperties.NewOrderOk | src/company/orders/_service.py:122-127 | the constructor succeeds on lines with positive quantities |
| CompanyServiceProperties.CollapsePositive | src/company/orders/_service.py:118-121 | Counter-made lines all have positive quantities |
| CompanyServiceProperties.StepOutcome | src/company/orders/_service.py:94-132 | one record raises `ValueError` when an id is negative; it raises `ConflictError` with its id when that id is stored; it succeeds exactly otherwise, appending its order, and its user and products are then stored |
| CompanyServiceProperties.NoFailureBefore | src/company/orders/_service.py:93-132 | a batch that raises nothing had raised nothing before its last record |
| CompanyServiceProperties.IngestPendingLength | src/company/orders/_service.py:92-132 | a batch that raises nothing collects one order per record after those it started with |
| CompanyServiceProperties.UserIdsGrow | src/company/orders/_service.py:100-101 | a table that only grows keeps every user id it held |
| CompanyServiceProperties.ProductIdsGrow | src/company/orders/_service.py:112-113 | a table that only grows keeps every product id it held |
| CompanyServiceProperties.CarryOver | src/company/orders/_service.py:93-132 | what holds of a record stays true as the tables and collected orders grow |
| CompanyServiceProperties.LastCarried | src/company/orders/_service.py:94-132 | a record that goes through holds of the state its step ends in |
| CompanyServiceProperties.IngestRecord | src/company/orders/_service.py:93-132 | in a batch that raises nothing, record `k` is well-formed, its id is not stored, its order is the `k`-th collected, and its user and products are stored |
| CompanyServiceProperties.IngestSuccess | src/company/orders/_service.py:92-136 | a batch that raises nothing collects one order per record, in record order, and keeps every record's user and products stored |
| CompanyServiceProperties.IngestConflict | src/company/orders/_service.py:128-131 | `ConflictError` is raised only for the id of a record of the batch that the `orders` table already holds |
| CompanyServiceProperties.IngestSucceedsIff | src/company/orders/_service.py:128-131 | a batch of well-formed records goes through exactly when none of their ids is stored |
| CompanyServiceProperties.IngestFresh | src/company/orders/_service.py:92-132 | a batch of well-formed records whose ids are not stored raises nothing |
| CompanyServiceProperties.StepFresh | src/company/orders/_service.py:96-132 | one well-formed record whose id is not stored goes through |
| CompanyServiceProperties.IngestKeepsEarlierRecords | src/company/orders/_service.py:86-115 | there is no rollback: when a later record raises, the users and the products of the records before it stay saved |
| CompanyServiceProperties.StepStores | src/company/orders/_service.py:94-115 | whatever a record raises, its user is stored once the user can be constructed, and its products are stored once none of its ids is negative |
| CompanyServiceProperties.ConflictKeepsSaved | src/company/orders/_service.py:93-131 | a `ConflictError` raised by a record ends the batch with that record's id, which is stored; the users and products of every record up to and including it stay saved |
| CompanyServiceProperties.WholeExtendsPrefix | src/company/orders/_service.py:93-115 | more records only extend the `users` and the `products` tables |
| CompanyServiceProperties.BatchIds | src/company/orders/_service.py:128-132 | over well-formed records with unstored ids, one order per record is collected with that record's id, even when two records share an id |
| CompanyServiceProperties.DuplicateWithinBatch | src/company/orders/_service.py:128-132 | two records with one id in one batch raise no conflict, and both orders are collected |
| MeiroShared.NewEntity | src/meiro/orders/_shared.py:50-55 | the `id` property returns the constructor argument |
| MeiroShared.EqualsIsEquivalence | src/meiro/orders/_shared.py:57-58 | `__eq__` is reflexive, symmetric and transitive |
| MeiroShared.HashAgreesWithEquals | src/meiro/orders/_shared.py:60-61 | entities are equal exactly when their hashed `(type, id)` tuples are equal |
| MeiroShared.NatToDecimal | src/meiro/orders/_shared.py:63-64 | `str(n)` is a non-empty string of digits without a leading zero |
| MeiroShared.IntToDecimal | src/meiro/orders/_shared.py:63-64 | `str(i)` starts with `-` exactly for a negative `i`, and holds no parenthesis |
| MeiroShared.NatDecimalRoundTrip | src/meiro/orders/_shared.py:63-64 | reading back the digits of `n` gives `n` |
| MeiroShared.IntDecimalRoundTrip | src/meiro/orders/_shared.py:63-64 | `int(str(i)) == i` |
| MeiroShared.IndexOf | src/meiro/orders/_shared.py:63-64 | the position of the first occurrence, or the length when there is none |
| MeiroShared.IndexOfPrefix | src/meiro/orders/_shared.py:63-64 | after a prefix without `(`, the first `(` is right behind that prefix |
| MeiroShared.StrRoundTrip | src/meiro/orders/_shared.py:63-66 | `TypeName(id=<id>)` parses back to the entity it was printed from |
| MeiroShared.ParseStrOf | src/meiro/orders/_shared.py:63-66 | a type name without `(` followed by `(id=<digits>)` reads back as that name and the integer the digits spell |
| MeiroShared.StrInjective | src/meiro/orders/_shared.py:57-66 | two entities print alike exactly when they are equal |
| MeiroDomain.NewUser | src/meiro/orders/_domain.py:42-47 | `ValueError` exactly for a negative id; otherwise the user keeps its fields |
| MeiroDomain.User.ChangeName | src/meiro/orders/_domain.py:60-64 | the constructor applied to the same id and city and the new name |
| MeiroDomain.User.ChangeCity | src/meiro/orders/_domain.py:66-70 | the constructor applied to the same id and name and the new city |
| MeiroDomain.NewProduct | src/meiro/orders/_domain.py:82-92 | `ValueError` exactly for a negative id; otherwise the product keeps its fields |
| MeiroDomain.NewOrder | src/meiro/orders/_domain.py:114-131 | `ValueError` for a negative id, checked first, then for an empty products list; otherwise a valid order whose products are exactly the listed ids |
| MeiroDomain.Order.HasProduct | src/meiro/orders/_domain.py:158-159 | membership in the order's product set; `MeiroDomain.NewOrder` states it is true exactly for the ids the order was built with |
| MeiroDomain.NewOrderFromSet | src/meiro/orders/_domain.py:114-131 | the same checks, on products already frozen into a set |
| MeiroDomain.SetOf | src/meiro/orders/_domain.py:131 | `frozenset(products)` holds exactly the listed ids, is no larger than the list, and is empty only for `[]` |
| MeiroDomain.Order.RemoveProductAsWritten | src/meiro/orders/_domain.py:164-172 | as written, the call always raises, and it raises `DomainError` naming the product exactly when the product is absent |
| MeiroDomain.Order.RemoveProduct | src/meiro/orders/_domain.py:164-172 | as intended: it fails exactly when the product is absent (`DomainError` naming it) or is the order's only product; a new order lacks the product and has the other products |
| MeiroDomain.UserIdentity | src/meiro/orders/_shared.py:50-61 | a user's `id` is its constructor argument; users are equal exactly when their ids are, and equal exactly when they hash equal |
| MeiroDomain.ProductIdentity | src/meiro/orders/_shared.py:50-61 | the same for products |
| MeiroDomain.OrderIdentity | src/meiro/orders/_shared.py:50-61 | the same for orders, whatever their user, time and products |
| MeiroDomain.DifferentEntitiesUnequal | src/meiro/orders/_shared.py:57-58 | a user, a product and an order are never equal to each other |
| MeiroDomain.ChangesKeepIdentity | src/meiro/orders/_domain.py:60-70 | a renamed or moved user equals the original and prints like it, and the field left alone keeps its value |
| MeiroDomain.OrderStrInjective | src/meiro/orders/_shared.py:57-66 | two orders print alike exactly when they are equal |
| MeiroDomain.ProductOrderIrrelevant | src/meiro/orders/_domain.py:131 | product lists with the same ids, in any order and with any repeats, build the same order |
| MeiroDomain.RemoveAbsentProduct | src/meiro/orders/_domain.py:164-166 | removing an absent product raises `DomainError` naming it |
| MeiroDomain.RemoveProductNeverSucceedsAsWritten | src/meiro/orders/_domain.py:167-172 | as written, `remove_product` never returns an order |
| MeiroDomain.RemoveProductSpec | src/meiro/orders/_domain.py:164-172 | as intended, removing a present product keeps the id, user and time and exactly the other products; it raises `ValueError` only when it was the last product |
| MeiroDomain.OrderExample | src/meiro/orders/_domain.py:105-111 | the documented order 21 with product 2 has products `{2}` and prints as `Order(id=21)` |
| MeiroDomain.ConstructorExamples | src/meiro/orders/_domain.py:121-131 | repeated product ids collapse; an empty list and a negative id raise `ValueError` |

## Left out

- CompanyStorage.UserRepository.Exists: this takes the identifier. `batch_insert` passes the user object itself (src/company/orders/_service.py:100), which sqlite cannot bind as a parameter. The model reads that call as a lookup by identifier.
- CompanyStorage.ProductRepository.Exists: the same, for the product object passed at src/company/orders/_service.py:112.
- CompanyStorage.OrderRepository.Exists: the same, for the order object passed at src/company/orders/_service.py:128.
- CompanyStorage.OrderRepository.FindBetween: the result is a `Result` of a whole sequence. The source returns a lazy generator, which yields the orders before a failing group and only then raises. Laziness is left out.
- CompanyStorage.BuildOrder: `find_between` rebuilds each group with the corrected order constructor (the quantity check of the second Findings row). So a stored line row with quantity 0 or less makes the model's query raise `ValueError`; the source as written yields that order. Such a row is written only when an order the corrected constructor refuses is saved (`CompanyStorage.SavedLineRows`). `batch_insert` never builds one, since Counter-made quantities are positive (`CompanyServiceProperties.CollapsePositive`).
- CompanyService.OrderService.BatchInsert: the three repositories are required to share one `Database`, as src/company/orders/__main__.py:59-64 wires them. Separate connections are not modelled. The `logger` calls (`inform`) are left out, since they only print.
- The schema file (`schema.sql`) is not part of this model. So `Save` appends rows without the primary-key check sqlite would apply. The round-trip lemmas require the ids they save to be fresh instead.
- Parsing the JSON records, and the `KeyError` raised by a missing field: records arrive already parsed as `Record` values.
- `DateTimeRange`, `seach_orders_by_date_range` and `search_users_with`: timestamps are integers given directly to `FindBetween`. The conversion of `datetime` values to timestamps (`Order.created`) is left out. Floating-point timestamps are modelled as integers.
- `create_schema`, `delete_schema` and the `find` methods that return `NotImplemented`.
- The reflection-based `Entity.__str__` of the company package (src/company/orders/_common.py:146-153) uses `inspect`, which is not modelled.
- The frozensets are modelled as sets (meiro) or as duplicate-free sequences in first-occurrence order (company). The iteration order of a frozenset is unspecified, so no contract depends on it.
- The meiro service, storage, schema and command-line modules are not part of this model. Neither is the company `__main__` exit-code mapping.
- The meiro `has_same_products`, `insert_product` and `assign_to_user` methods, and the commented-out `Order.create`: they are either `NotImplemented` or not compiled.
- Integer width: ids, timestamps, prices and quantities are unbounded integers. sqlite3 raises `OverflowError` when `save`, `exists` or `find_between` binds a value outside the signed 64-bit range (src/company/orders/_storage.py:60-168); the model stores and compares any such value.
- The meiro `Entity` takes any identifier type in Python. The model fixes it to `int`, which is what every meiro entity uses.

## Findings

| source | as written | input that shows it | evidently intended | confidence | as-written member | corrected member |
|---|---|---|---|---|---|---|
| src/company/orders/_shared.py:42-44 | the check is named `__post_init` (without the trailing underscores), so the dataclass never calls it | `Name("")` | `ValueError("Empty string is not allowed")`, the message of the check itself at line 44; the twin class in src/company/orders/_common.py:97-99, whose hook is spelled `__post_init__`, does refuse the empty string (with "Empty name is not allowed") | high (not executed) | CompanyShared.EmptyNameAccepted | CompanyCommon.MakeName |
| src/company/orders/_domain.py:140-154 | the constructor checks only the identifier; a line with quantity 0 or less is frozen into the order | `Order(1, user_id=1, created=..., order_lines=[OrderLine(1, 0)])` | `ValueError`, as tests/test_domain.py:93-110 expect | high (not executed) | CompanyDomain.ZeroQuantityAcceptedAsWritten | CompanyDomain.NewOrder |
| src/meiro/orders/_domain.py:167-172 | `self._products.difference(product_id)` is handed an `int`, which raises `TypeError`; the product ids would also be passed positionally beside `id=` | `Order(1, 0, 0, [2]).remove_product(2)` | a new order with the same id, user and time and without product 2, with the constructor's `ValueError` when no product remains | high (not executed) | MeiroDomain.RemoveProductNeverSucceedsAsWritten | MeiroDomain.RemoveProductSpec |
