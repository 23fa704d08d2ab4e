# osmtools boundary extractor: selection and aggregation core

This project models the part of the `osmtools` boundary extractor that
decides which OpenStreetMap relations are kept and what is made of them:

- the two relation predicates, `filter_all_relations` (a relation with a
  `name` key and an `admin_level` of 2, 4, 6, 7 or 8) and
  `filter_target_relations` (additionally a `boundary` tag of one of the
  four target types);
- `to_stats`, which tallies the relations of the result map by their
  `boundary` tag value and lists the `(value, count)` pairs by count,
  largest first;
- the selection performed by `to_jsonl`, which emits one line per
  relation passing the narrow predicate, in the result map's key order.

The result map (a `BTreeMap<OsmId, OsmObj>` in the program) is modelled as
the sequence of its entries in iteration order, `seq<Entry>`, and
`Osm.Sorted` states that its keys strictly increase under the derived id
ordering (variant Node < Way < Relation, then number). Objects are the
datatype `OsmObj = Node | Way | Relation`, each with `tags: map<string, string>`;
a relation's members are a `seq<Ref>` of (id, role).

`to_stats` is modelled as two methods with loops, as the program has two
loops: `Stats.CountBoundaries` updates a counter map once per visited
boundary value, and `Stats.SortByCountDescending` walks the counter map in
an unspecified order (a `:|` choice standing for hash-map iteration) and
places each entry after every entry of equal or larger count, which is
what a stable sort of that walk does. The order among equal counts is
therefore not fixed by the model, as it is not fixed by the program.
Both are specified against the functions `Stats.Boundaries` (the values
visited: the iterator chain `values().filter(..).filter_map(..)` as the
generic `Stats.FilterMap` applied to `Stats.BoundaryOf`) and `Stats.Tally`
(the counter map, whose contract ties every count to the value's number
of occurrences). Likewise `to_jsonl`'s selection is the generic
`Jsonl.FilterEntries` applied to the narrow predicate (`Jsonl.Selected`);
the lemmas about the generic filters hold for every predicate and so for
the one the program passes.

Two behaviours of the code worth stating, which the model keeps:

- `filter_all_relations` only checks that the `name` key is present
  (`contains_key("name")`, src/main.rs:78), so a relation with an empty
  name passes (`Filters.AdministrativeLevelFourSelected` holds for every
  name, the empty one included);
- the `filter_map` at src/main.rs:100 drops every relation without a
  `boundary` tag before counting, so such relations get no bucket in the
  histogram (`Stats.BoundariesExactly`).

## Model

| member | source | states |
|---|---|---|
| `Osm.IdLessIsStrictTotalOrder` | src/main.rs:84 | a property of the key type `OsmId` of the `BTreeMap` that `load_relations` returns: its derived ordering (variant, then number) is irreflexive, transitive and total, so distinct positions of the map hold distinct keys |
| `Filters.TargetBoundaryTypes` | src/main.rs:15-20 | the four boundary values the narrow predicate accepts, in the program's order |
| `Filters.IsSupportedAdminLevel` | src/main.rs:79-81 | an `admin_level` value is accepted iff it is one of "2", "4", "6", "7", "8" |
| `Filters.FilterAllRelations` | src/main.rs:76-82 | the broad predicate; whatever it accepts is a relation carrying both a `name` and an `admin_level` key |
| `Filters.FilterTargetRelations` | src/main.rs:69-74 | the narrow predicate; whatever it accepts passes the broad predicate and carries a `boundary` tag listed among the target types |
| `Filters.TargetImpliesAll` | src/main.rs:69-74 | every object the narrow predicate accepts is accepted by the broad predicate |
| `Filters.AllRelationsExactly` | src/main.rs:76-82 | the broad predicate holds iff the object is a relation, has a `name` key (any value) and an `admin_level` that is exactly one of "2", "4", "6", "7", "8" |
| `Filters.TargetRelationsExactly` | src/main.rs:15-20 | the narrow predicate holds iff the broad one does and `boundary` is present and one of "administrative", "state_border", "country_border", "state border" |
| `Filters.NonRelationsRejected` | src/main.rs:76-77 | nodes and ways fail both predicates |
| `Filters.MissingTagRejected` | src/main.rs:78-81 | a missing `name` or `admin_level` tag makes both predicates false, never an error |
| `Filters.MissingBoundaryRejected` | src/main.rs:71-73 | an absent `boundary` tag makes the narrow predicate false |
| `Filters.AdministrativeLevelFourSelected` | src/main.rs:69-82 | a relation with any name, admin level "4" and boundary "administrative" passes both predicates |
| `Filters.AdminLevelTenRejected` | src/main.rs:79-81 | admin level "10" passes neither predicate |
| `Stats.BoundaryOf` | src/main.rs:99-100 | a map value yields a boundary iff it passes the broad predicate and has a `boundary` tag, and then it yields that tag's value |
| `Stats.Boundaries` | src/main.rs:97-100 | the boundary values the counting loop visits, at most one per map entry (characterised exactly by `Stats.BoundariesExactly`) |
| `Stats.FilterMap` | src/main.rs:97-100 | a filter-map over the map's values yields at most one value per entry |
| `Stats.FilterMapMember` | src/main.rs:97-100 | a value is produced iff some entry yields it |
| `Stats.FilterMapLength` | src/main.rs:97-100 | exactly one value is produced per entry that yields one |
| `Stats.BoundariesExactly` | src/main.rs:97-100 | a boundary value is visited iff some entry passing the broad predicate carries it; entries without a `boundary` tag contribute nothing; as many values are visited as there are entries passing the broad predicate with a `boundary` tag |
| `Stats.Increment` | src/main.rs:102 | `entry(..).or_default() += 1`: the value gains an entry if absent, its count becomes 1 from the default zero or grows by one, and every other count is unchanged |
| `Stats.Tally` | src/main.rs:95-103 | the counter map's keys are exactly the visited values and each count is that value's number of occurrences |
| `Stats.TotalOfCounts` | src/main.rs:95-107 | counts listed once per distinct value add up to the number of visited values |
| `Stats.CountBoundaries` | src/main.rs:95-103 | the counter loop leaves the counter map equal to the tally of the visited values |
| `Stats.FindInsertionPoint` | src/main.rs:105 | in a list sorted by count, largest first, finds the position after every entry whose count is at least the new one's |
| `Stats.SortByCountDescending` | src/main.rs:105-107 | the output lists every entry of the counter map exactly once, with its count, non-increasing by count |
| `Stats.TallyListingCounts` | src/main.rs:95-102 | in any listing of the tally's entries each count is the value's number of occurrences and at least 1, since an entry is created only by an increment |
| `Stats.ToStats` | src/main.rs:94-110 | the emitted pairs are a permutation of the tally's entries, one per distinct boundary value, non-increasing by count, and the counts sum to the number of entries passing the broad predicate that have a `boundary` tag |
| `Jsonl.FilterEntries` | src/main.rs:116-118 | filtering the map's values keeps no more entries than the map has |
| `Jsonl.Selected` | src/main.rs:116-118 | the entries the emitter's filter keeps: at most one per map entry, each an entry of the map that passes the narrow predicate (exactly-once and order in `Jsonl.SelectedExactly`) |
| `Jsonl.FilterSound` | src/main.rs:116-118 | every kept entry is an entry of the map and passes the filter |
| `Jsonl.FilterComplete` | src/main.rs:116-118 | every entry passing the filter is kept |
| `Jsonl.FilterSorted` | src/main.rs:116-118 | kept entries come in ascending key order |
| `Jsonl.FilterOnce` | src/main.rs:116-118 | in an ordered map each entry is kept exactly once if it passes the filter and not at all otherwise |
| `Jsonl.SelectedExactly` | src/main.rs:116-122 | with the narrow predicate as the filter: each entry passing it is emitted exactly once, no other entry is emitted, and the emitted entries are in ascending key order |
| `Jsonl.ToJsonl` | src/main.rs:112-125 | the emitter writes, in order, exactly the values of the selected entries, each passing the narrow predicate |
| `Scenarios.WayAndBoundaryOutputs` | src/main.rs:94-125 | a way plus one named level-4 administrative relation: the tally is `administrative 1` and only the relation is emitted |
| `Scenarios.AdminLevelTenIgnored` | src/main.rs:76-82 | a relation at admin level "10" yields neither a tally entry nor a line |
| `Scenarios.NonTargetBoundaryCountedNotEmitted` | src/main.rs:97-100 | a named level-2 relation with a non-target boundary is counted by the histogram (broad re-filter) but not emitted (narrow filter) |

## Left out

- `main` (src/main.rs:41-67): argument parsing, logger setup, opening the output file or standard output, and the dispatch between the two modes. The dispatch loads with the narrow predicate for the histogram and the broad one for the emitter; since loading is not modelled, each consumer here takes the result map as a parameter.
- `load_relations` (src/main.rs:84-92): PBF decoding and dependency closure happen in the `osmpbfreader` crate, which is not part of this model; its result is the given `seq<Entry>`.
- JSON serialisation with `serde_json::to_string` (src/main.rs:120): each output line is represented by the object it serialises.
- Buffered writing, `writeln!` and error propagation (src/main.rs:106, 114, 121): output is a returned sequence; write and serialisation failures are not modelled.
- Stats.ToStats: returns the `(value, count)` pairs, not the text lines `"{value} {count}"` that the program writes.
- Stats.ToStats: counts are unbounded naturals; `usize` overflow is not modelled, since it would need more relations than fit in memory.
- The relative order of equal counts in the histogram comes from hash-map iteration and is left open.
- Node coordinates and the other object fields the predicates never read are not modelled.
