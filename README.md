# oxbow GXF attribute harmonisation, in Dafny

This project models the attribute layer of oxbow's GTF/GFF ("GXF") reader
(`oxbow/src/gxf/model/attribute.rs`). That layer decides which dynamic attribute
columns a batch has and how each raw attribute becomes a cell of its column:

- **Attribute definitions.** `AttributeDef` pairs a name with a closed
  `AttributeType` (`String` or `Array`). It is built from a `(name, type)` string
  pair whose type is matched case-insensitively. Each type maps to an Arrow column
  type: `Utf8`, or a list of `Utf8` whose child field is `item`.
- **Attribute values.** `AttributeValue` is the harmonised value of one entry. A
  GTF entry always becomes a `String`. A GFF value becomes a `String` or an
  `Array`, keeping its element order.
- **`AttributeBuilder`.** This is a class that accumulates one column. It keeps
  Arrow-like buffers: one text per row for strings, or a shared child buffer with
  row offsets for lists, plus a validity flag per row. `Column()` abstracts these
  to a sequence of optional values. `AppendNull`, `AppendValue` and `Finish` are
  proved against that sequence.
- **`AttributeScanner`.** This is a class holding the scanner's
  `BTreeMap<String, String>` as a map plus its keys in sorted order. Pushing a
  record inserts each attribute name with "first type seen wins". A pure fold,
  `ObserveAll`, specifies the pushes, and lemmas about it state the policy.
  `Collect` returns the pairs strictly sorted by name.

Files: `wrappers.dfy` (results and error kinds), `case_folding.dfy` (lower-casing
of type tags), `string_order.dfy` (the key order of the map), `attribute.dfy`
(types, definitions, values, conversions), `attribute_builder.dfy`,
`attribute_scanner.dfy`, and `scan_example.dfy` (the two-record `gene_id` example,
as a client of the contracts).

## Model

| member | source | states |
|---|---|---|
| `Attribute.ArrowType` | oxbow/src/gxf/model/attribute.rs:52-57 | `String` is the only type given `Utf8`; an `Array` column is a list whose child is the nullable `Utf8` field `item` |
| `Attribute.ArrowTypeRoundTrip` | oxbow/src/gxf/model/attribute.rs:51-57 | the mapping is total and injective: the attribute type is read back from its column type |
| `Attribute.GetArrowField` | oxbow/src/gxf/model/attribute.rs:19-21 | the field of a definition carries the definition's name, is always nullable, and has its type's column type |
| `Attribute.TryFromPair` | oxbow/src/gxf/model/attribute.rs:27-41 | succeeds with `String` exactly when the tag spells "string" in any letter case, with `Array` exactly when it spells "array", keeps the name unchanged, and otherwise fails with `InvalidInput` |
| `CaseFolding.Lowercase` | oxbow/src/gxf/model/attribute.rs:29 | lower-casing keeps the length and folds each character on its own |
| `CaseFolding.LowercaseIsWord` | oxbow/src/gxf/model/attribute.rs:29-31 | lower-casing a tag gives a lower-case word exactly when the tag spells that word with each letter in either case |
| `Attribute.TypeNameRoundTrip` | oxbow/src/gxf/model/attribute.rs:27-41 | the tags "String" and "Array" that the scanner writes parse back, under any name, to the type they name |
| `Attribute.FromGtfEntry` | oxbow/src/gxf/model/attribute.rs:67-71 | a GTF entry always becomes a `String` holding the entry's value |
| `Attribute.Unwrapped` | oxbow/src/gxf/model/attribute.rs:77 | unwrapping decoded array elements keeps their number and order |
| `Attribute.FromGffValue` | oxbow/src/gxf/model/attribute.rs:73-80 | a GFF string becomes a `String` with the same text; a GFF array becomes an `Array` of the same length and element order |
| `Attribute.FromGffValueRoundTrip` | oxbow/src/gxf/model/attribute.rs:73-80 | the GFF conversion loses nothing: it is a bijection between decoded GFF values and attribute values |
| `AttributeBuilders.AttributeBuilder.Cell` | oxbow/src/gxf/model/attribute.rs:84-87 | a present cell of a builder always holds a value of the builder's type |
| `AttributeBuilders.AttributeBuilder.Column` | oxbow/src/gxf/model/attribute.rs:84-87 | the column has one cell per appended row, and its present cells match the builder's type |
| `AttributeBuilders.AttributeBuilder.constructor` | oxbow/src/gxf/model/attribute.rs:90-97 | a new builder has the requested type and an empty column |
| `AttributeBuilders.AttributeBuilder.AppendNull` | oxbow/src/gxf/model/attribute.rs:99-104 | exactly one null is appended and earlier rows are unchanged, for both builder types |
| `AttributeBuilders.AttributeBuilder.AppendValue` | oxbow/src/gxf/model/attribute.rs:106-138 | succeeds exactly when the value's variant matches the builder's. On success exactly one present cell equal to the value is appended; an empty array is present, not null, and its children land in order. On a mismatch it fails with `InvalidInput` and leaves the builder unchanged |
| `AttributeBuilders.AttributeBuilder.Finish` | oxbow/src/gxf/model/attribute.rs:140-145 | returns exactly the column built so far, typed by `ArrowType` of the builder's type, and leaves the builder empty |
| `StringOrder.Less` | oxbow/src/gxf/model/attribute.rs:150 | Rust's `Ord` on `String`, the order the `BTreeMap` keeps its keys in and so the order `collect` lists them in. It compares UTF-8 bytes, which orders strings as comparing code points one by one does. A string never sorts before itself, and a proper prefix sorts before the strings it begins |
| `StringOrder.LessTransitive` | oxbow/src/gxf/model/attribute.rs:150 | the key order of the map is transitive |
| `StringOrder.LessTotal` | oxbow/src/gxf/model/attribute.rs:150 | any two different keys are ordered one way or the other |
| `StringOrder.InsertKeepsSorted` | oxbow/src/gxf/model/attribute.rs:184-186 | inserting a new key at its place keeps the keys strictly sorted |
| `StringOrder.SortedListingUnique` | oxbow/src/gxf/model/attribute.rs:166-173 | two strictly sorted listings of the same keys are equal |
| `AttributeScanners.GffTag` | oxbow/src/gxf/model/attribute.rs:197-200 | the tag inferred for a GFF value is "String" or "Array" |
| `AttributeScanners.GtfObservations` | oxbow/src/gxf/model/attribute.rs:182-187 | a GTF record contributes each attribute key, in order, with the tag "String" |
| `AttributeScanners.GffObservations` | oxbow/src/gxf/model/attribute.rs:193-201 | a GFF record contributes each attribute key, in order, with the tag of its value's shape |
| `AttributeScanners.Observe` | oxbow/src/gxf/model/attribute.rs:184-186 | `or_insert_with` adds the key, keeps every known key's tag, and gives a new key the offered tag |
| `AttributeScanners.ObserveAllNames` | oxbow/src/gxf/model/attribute.rs:180-203 | after a scan, the known names are exactly the earlier names plus every name observed |
| `AttributeScanners.ObserveAll` | oxbow/src/gxf/model/attribute.rs:180-203 | the first-wins fold that both `push` loops are proved equal to: observing names in order, a name already known keeps its tag whatever is observed later |
| `AttributeScanners.ObserveAllFirstOccurrence` | oxbow/src/gxf/model/attribute.rs:195-200 | a new name gets the tag of its first occurrence in the stream |
| `AttributeScanners.ObserveAllConcat` | oxbow/src/gxf/model/attribute.rs:176-178 | pushing records one after another is the same as scanning their concatenated attributes |
| `AttributeScanners.ObserveAllTags` | oxbow/src/gxf/model/attribute.rs:186 | scanning only ever records the tags "String" and "Array" |
| `AttributeScanners.AttributeScanner.constructor` | oxbow/src/gxf/model/attribute.rs:153-164 | a new scanner (also the `Default` one) knows no attribute |
| `AttributeScanners.AttributeScanner.Collect` | oxbow/src/gxf/model/attribute.rs:166-173 | returns exactly the map's (name, tag) pairs, strictly sorted by name and so without duplicates, each tag "String" or "Array" |
| `AttributeScanners.AttributeScanner.OrInsert` | oxbow/src/gxf/model/attribute.rs:184-186 | the map becomes `Observe` of the old map, with the sorted key order kept |
| `AttributeScanners.AttributeScanner.PushGtf` | oxbow/src/gxf/model/attribute.rs:180-189 | the map becomes the first-wins fold of the record's GTF observations |
| `AttributeScanners.AttributeScanner.PushGff` | oxbow/src/gxf/model/attribute.rs:191-203 | the map becomes the first-wins fold of the record's GFF observations, for a record whose attributes all parse |
| `AttributeScanners.CollectIsCanonical` | oxbow/src/gxf/model/attribute.rs:166-173 | the collected listing is determined by the map alone, not by the order attributes were seen |
| `AttributeScanners.CollectedPairsParse` | oxbow/src/gxf/model/attribute.rs:166-173 | every collected pair is accepted by `TryFromPair`, keeping its name and the type its tag names |
| `AttributeScanners.GtfValueFitsInferredColumn` | oxbow/src/gxf/model/attribute.rs:180-187 | the column inferred for a GTF attribute accepts the value converted from that entry |
| `AttributeScanners.GffValueFitsInferredColumn` | oxbow/src/gxf/model/attribute.rs:191-200 | the column inferred from a name's first GFF value accepts that value, and accepts a later value exactly when it has the same shape |

## Left out

- The scan engine (`Scanner`, `BatchIterator`, `QueryBatchIterator`, `BatchBuilder`) is not part of this model. `oxbow/src/sequence/format/fasta.rs` is a thin façade over these, and its only logic is its default batch sizes (1 and 1024).
- `py-oxbow/src/lib.rs` is Python binding registration. It has no logic.
- Arrow internals are modelled as sequences: the byte layout of buffers, validity bit-packing, `ArrayRef` and `Arc`.
- AttributeBuilders.AttributeBuilder.AppendValue: does not model the panic of Arrow's `i32` offsets once a column's total text bytes, or a list column's child count, passes `i32::MAX`, because offsets are unbounded `nat`s here.
- The noodles parsers are replaced by plain datatypes (`GtfEntry`, `GtfRecord`, `GffValue`, `GffField`, `GffRecord`). GFF percent-decoding is not modelled; an element that fails to decode is `None`.
- The two `unwrap()` panics become preconditions: `Decoded` for GFF array elements, and `AllParsed` for a GFF record's attributes.
- Error messages and their `Debug` formatting are not modelled; only the error kind is.
- CaseFolding.Lowercase: the source's `to_lowercase` is full Unicode lower-casing, while this folds only `A`-`Z`. Outside ASCII, no character lower-cases to exactly one of the letters of "string" or "array" (U+0130 becomes `i` followed by a combining dot). So whether a tag is accepted is the same either way, but the lower-cased string itself is not.
- Both type-mismatch branches of `append_value` raise `io::ErrorKind::InvalidInput`. The model follows the code and does not have a separate type-mismatch error kind.
- `finish` takes `&mut self`, and Arrow's builders reset when they finish. So the model's `Finish` leaves an empty builder of the same type, which can be used again; it is not a one-shot consumption.
- `Push` is modelled as two methods, `PushGtf` and `PushGff`, rather than as a generic trait.
