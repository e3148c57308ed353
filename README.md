# qparser, modelled in Dafny

qparser decodes a URL query, a map from each key to its list of strings, into the
fields of a Go struct. A field names its key with a `qp` tag. Nested structs and
pointers to structs are filled recursively from the same flat set of keys.
Comma-separated values fill slices. Times are parsed with a list of layouts, after
a timezone offset whose `+` sign URL decoding turned into a space has been repaired.

The repository holds two generations of the library side by side. Each core Go file
is modelled as its own Dafny module:

| module | file | what it holds |
|---|---|---|
| `TimeParser` | time_parser.go | the anchored, sign-aware `fixTimezoneOffset`; `parseTime` with trimming, conditional repair, guarded fast paths and the fallback over `timeFormats` |
| `TimeSetter` | time_setter.go | the end-anchored `fixTimezoneOffset`; `setTime`, a first-match loop over its `timeFormats` |
| `PrimitiveSetter` | primitive_setter.go | `setStr`, `setBool`, `setInt`, `setUint`, `setFloat` |
| `Setter` | setter.go | `SetValue`, which allocates pointers, splits slices and dispatches through `setters`; its copies of the primitive setters are identical to those of primitive_setter.go and are shared with them |
| `FieldError` | field_error.go | the sentinels, `FieldError.Error`, `Unwrap`, `wrapFieldError`, `strconvNumError` |
| `Cache` | cache.go | `getStructCache`: the schema build loop and the insert-if-absent memo |
| `Parser` | parser.go | `parse` and the field parsers, with `getStructTag`, `isTimeType`, `isStructType`, `validateStructPointer`, `isAllFieldsZero` |

Supporting modules stand in for the parts of Go the code calls:

- `Shapes` replaces `reflect`. A `Shape` is a field type and a `Value` tree is a field value. It also gives the zero value of each shape, `IsZero`, and `Cell`, a settable location.
- `Strconv` models `ParseInt`, `ParseUint` and `ParseBool` from Go's `strconv`, including its order of range and syntax errors.
- `Text` holds `unicode.IsSpace`, `strings.TrimSpace`, `strings.Split` and `strings.Join`.
- `TimeRegex` is a character-class matcher for the two timezone-repair regular expressions.
- `GoTime` is a fixed-pattern recognizer for the `time.Parse` layouts the decoder uses.
- `Wrappers` provides `Option` and `Result`.

Where the code mutates state, the model is imperative:

- `Setter.SetValue`, the `Parser.Parse*` methods and `Cache.StructCache.GetStructCache` are methods.
- They write through `Cell`s or a class field.
- Each method is proved equal to a function that says what the call does. The properties are proved about that function.

`setValue`, called by parser.go, is not part of this model. It is the `Coercion`
parameter of the `Parser` module. A write or an `Interface()` through an unexported
struct field makes reflect panic. That panic is the `Panic` outcome.

Four behaviours of the code that are easy to miss:

- A nested struct's error is returned as it is, without the outer field's name (parser.go:176-178).
- A failing primitive field's error is the `setValue` message followed by the field's name and type (parser.go:208-210).
- An unexported field with a tag only sets `hasUnexportedWithTag` (cache.go:37-42). Nothing fails because of it.
- A nil struct pointer is reset to nil only after a successful recursion whose fields are all zero (parser.go:181-183). After a failure, the allocation stays.

## Model

| member | source | states |
|---|---|---|
| Text.TrimSpaceSpec | parser.go:216-222 | trimming removes exactly a leading and a trailing run of Unicode white space and keeps the middle intact |
| Text.TrimLeftSpec | parser.go:216-222 | the left trim is a suffix of the input whose dropped prefix is all white space and whose first character is not |
| Text.TrimRightSpec | parser.go:216-222 | the right trim is a prefix of the input whose dropped suffix is all white space and whose last character is not |
| Text.TrimSpaceIdempotent | parser.go:216-222 | trimming twice is trimming once |
| Text.TrimSpaceKeeps | time_parser.go:41 | text with no white space at either end is its own trim |
| Text.Split | setter.go:48 | splitting always yields at least one piece |
| Text.SplitJoin | setter.go:48 | joining the pieces of a split with the separator gives back the input |
| Text.SplitPiecesLackSeparator | setter.go:48 | no piece of a split contains the separator |
| Text.SplitWithoutSeparator | setter.go:48 | text without the separator splits into itself alone |
| Text.SplitAfterPiece | setter.go:48 | a separator-free piece followed by the separator splits off as the first piece |
| Strconv.Width | setter.go:17-26 | bit size 0 is the 64-bit machine word; every width lies between 8 and 64 |
| Strconv.FormatUint | primitive_setter.go:30-38 | the decimal rendering of a natural is an unsigned decimal |
| Strconv.ScanDigitsSpec | primitive_setter.go:30-38 | the digit scan succeeds exactly on all-digit text whose value is within the bound, returns that value, and reports a range error for an all-digit value above it |
| Strconv.ScanDigitsSyntax | primitive_setter.go:30-38 | a non-digit reached while the value is still within the bound is a syntax error |
| Strconv.ParseUintSpec | primitive_setter.go:30-38 | `strconv.ParseUint` succeeds exactly on an unsigned decimal within 2^n - 1, with that value; a larger decimal is a range error; every error names ParseUint and the input |
| Strconv.ParseUintSyntax | primitive_setter.go:30-38 | a non-digit after an in-range digit prefix is a syntax error |
| Strconv.ParseIntSpec | primitive_setter.go:20-28 | `strconv.ParseInt` succeeds exactly on an optionally signed decimal within [-2^(n-1), 2^(n-1) - 1], with that value; an out-of-range decimal is a range error; every error names ParseInt and the input |
| Strconv.FormatUintValue | primitive_setter.go:30-38 | the decimal rendering of n reads back as n |
| Strconv.FormatIntValue | primitive_setter.go:20-28 | the decimal rendering of an integer is a signed decimal that reads back as the integer |
| Strconv.ParseUintFormatUint | primitive_setter.go:30-38 | an in-range natural survives rendering and `ParseUint` |
| Strconv.ParseIntFormatInt | primitive_setter.go:20-28 | an in-range integer survives rendering and `ParseInt` |
| Strconv.ParseBoolSpec | primitive_setter.go:12-18 | `ParseBool` gives true exactly on 1 t T TRUE true True, false exactly on 0 f F FALSE false False, and a syntax error otherwise |
| Strconv.DecimalPrefixMonotone | primitive_setter.go:30-38 | a prefix of a digit string never has a larger value than the whole |
| Strconv.PrefixDigits | primitive_setter.go:30-38 | a prefix of a digit string is a digit string |
| PrimitiveSetter.SetStr | primitive_setter.go:8-10 | the string setter never fails and yields its input unchanged |
| PrimitiveSetter.SetBool | primitive_setter.go:12-18 | true exactly for the six true tokens, false exactly for the six false tokens, invalid for anything else |
| PrimitiveSetter.SetInt | primitive_setter.go:20-28 | succeeds iff the input is a signed decimal within the bit size's range, yielding its value |
| PrimitiveSetter.SetUint | primitive_setter.go:30-38 | succeeds iff the input is an unsigned decimal within 2^n - 1, yielding its value |
| PrimitiveSetter.SetIntRoundTrip | primitive_setter.go:20-28 | every in-range integer, rendered in decimal, sets back to itself |
| PrimitiveSetter.SetUintRoundTrip | primitive_setter.go:30-38 | every in-range natural, rendered in decimal, sets back to itself |
| PrimitiveSetter.SetUintRejectsSign | primitive_setter.go:30-38 | a leading `+` or `-` makes the unsigned setter fail, so `-1` is invalid |
| PrimitiveSetter.SetIntBounds | primitive_setter.go:20-28 | the minimum and maximum of each width are accepted, and one past either is rejected |
| PrimitiveSetter.SetIntOutOfRange | primitive_setter.go:20-28 | the rendering of any integer outside the width's range is rejected |
| PrimitiveSetter.SetUintBounds | primitive_setter.go:30-38 | 2^n - 1 is accepted and 2^n rejected |
| FieldError.WrapFieldError | field_error.go:43-48 | nil wraps to nil; otherwise the result unwraps to exactly the original error and matches every target the original matches |
| FieldError.FieldMessage | field_error.go:32-37 | the message is `failed to parse "<name>": <inner>` for a non-empty name and the inner message otherwise |
| FieldError.StrconvNumError | field_error.go:51-63 | the result wraps its base and its message is the base's message, `: `, then the value |
| FieldError.StrconvNumErrorSpec | field_error.go:51-63 | a range error becomes ErrOutOfRange and not ErrInvalidValue; a syntax error becomes ErrInvalidValue and not ErrOutOfRange; any other error, a `*strconv.NumError` with another cause included, is kept as the base |
| FieldError.SentinelsDistinct | field_error.go:12-24 | ErrOutOfRange and ErrInvalidValue never match each other |
| FieldError.OverflowIsOutOfRange | field_error.go:51-63 | a signed decimal outside the width's range fails `ParseInt` and is classified out of range, never invalid |
| FieldError.UnsignedClassification | field_error.go:51-63 | an unsigned decimal above the width's maximum is out of range, and `-1` for an unsigned field is invalid |
| Setter.Setters | setter.go:14-29 | the table has an entry exactly for string, bool, the integer, unsigned and float kinds, string and bool to their own setters, each numeric kind with its own bit size |
| Setter.Apply | setter.go:75-80 | a converted value always has the field's shape |
| Setter.KeepNonEmpty | setter.go:47-54 | keeping the non-empty pieces never lengthens the list |
| Setter.KeepNonEmptySpec | setter.go:47-54 | every kept piece is non-empty and already trimmed |
| Setter.KeepNonEmptyAppend | setter.go:47-54 | the filter distributes over concatenation |
| Setter.SplitValues | setter.go:47-54 | the collecting loop yields the trimmed, non-empty comma pieces of the value |
| Setter.NoCommaOnePiece | setter.go:47-54 | a value without a comma, such as `foo.bar.baz.qux`, is one piece (or none when blank) |
| Setter.PiecesConcat | setter.go:47-54 | the pieces of `a,b` are those of `a` followed by those of `b` |
| Setter.SetValueSpec | setter.go:37-83 | a write always leaves a value of the location's shape |
| Setter.SetDirect | setter.go:46-83 | a failed write leaves the location as it was |
| Setter.SetSlice | setter.go:46-68 | a slice is replaced only when every piece converts; on failure it keeps its previous value |
| Setter.SetScalar | setter.go:70-80 | a failed conversion leaves the location unwritten |
| Setter.SetEach | setter.go:57-65 | on success there is one element per piece, each of the element shape |
| Setter.SetEachStep | setter.go:59-65 | converting from piece i on converts piece i into a fresh zero element, then the rest, and stops at the first error |
| Setter.SetEachSpec | setter.go:57-65 | the conversion succeeds iff every piece converts into a zero element, and element k is then the conversion of piece k |
| Setter.PointerStaysAllocated | setter.go:39-44 | a pointer is non-nil after SetValue even when conversion fails; a nil one then points to the zero value and a non-nil one is unchanged |
| Setter.SliceSpec | setter.go:46-68 | a failed slice write keeps the old slice; a successful one is non-nil with one element per non-empty trimmed piece |
| Setter.StringSlice | setter.go:46-68 | a string slice always succeeds and holds the pieces themselves, in order |
| Setter.UnsupportedKindSpec | setter.go:70-73 | a kind with no setter fails with "unsupported kind" and is left unwritten |
| Setter.TableKindSpec | setter.go:70-80 | for every kind in the table, a value its setter converts is written with no error; one it rejects leaves the location unwritten and fails with `invalid value '<literal>'` |
| Setter.SetIntValue | setter.go:75-80 | an integer field takes the value exactly when it is an in-range signed decimal; otherwise it is unwritten and the error is `invalid value '<literal>'` |
| Setter.SetValue | setter.go:37-83 | the in-place write leaves the cell and returns the error the specification function gives |
| Setter.SetDirectly | setter.go:46-83 | the write after dereferencing agrees with its specification |
| Setter.SetSliceValue | setter.go:46-68 | the slice branch assigns the field only after the whole loop succeeds, as the specification says |
| Setter.FillSlice | setter.go:57-65 | the index-by-index fill of a fresh array yields the elements, or the first error, of the piecewise conversion |
| Setter.SetItem | setter.go:59-63 | each element is set by the recursive call, so pointer elements are allocated one by one |
| Shapes.ZeroSpec | parser.go:225-232 | the zero value of a shape has that shape and is zero |
| Shapes.ZeroFields | parser.go:166-174 | the zero fields of a struct number one per field |
| Shapes.ZeroFieldsSpec | parser.go:166-174 | each zero field has its field's shape and is zero |
| Shapes.Cell.constructor | parser.go:65-79 | a fresh cell holds the value it is given |
| Cache.Entry | cache.go:37-66 | a field is described iff it is exported and either tagged or an untagged struct other than time.Time; the descriptor keeps its name, type and position, carries the tag, and is nested exactly when untagged |
| Cache.EntriesSpec | cache.go:33-68 | every descriptor is the entry of the field at its index, indices strictly increase, and every described field appears |
| Cache.HiddenTagSpec | cache.go:37-42 | the flag is set iff some unexported field carries a non-empty tag |
| Cache.DescribeSpec | cache.go:25-68 | the schema has the type's name, only exported fields, exact tags, nested exactly when untagged, declaration order without repeats, every eligible field, and the hidden-tag flag |
| Cache.BuildStructInfo | cache.go:31-69 | the build loop yields the schema |
| Cache.StructCache.constructor | cache.go:9 | the cache starts empty |
| Cache.StructCache.Load | cache.go:27-29 | a lookup finds an entry exactly when one is stored, and returns it |
| Cache.StructCache.LoadOrStore | cache.go:72-73 | an existing entry wins and nothing changes; otherwise the new entry is stored and returned |
| Cache.StructCache.GetStructCache | cache.go:25-74 | returns the type's schema, stores it under the type, keeps every earlier entry, and adds no other key |
| TimeRegex.StampNoSpace | time_parser.go:11 | a date-time matched by the repair pattern holds no white space |
| TimeRegex.ConcatNoSpace | time_parser.go:11 | white-space-free pieces join into white-space-free text |
| TimeRegex.DateClockIsStamp | time_parser.go:11 | a date, `T`, a clock and a fraction of up to nine digits form a date-time of the pattern |
| TimeRegex.DateClockNoSpace | time_parser.go:11 | such a date-time followed by white-space-free text holds no white space |
| TimeRegex.PlusOffset | time_parser.go:13-37 | `+` before an in-range hh:mm is an offset the layouts accept |
| TimeParser.Signed | time_parser.go:97-99 | the offset gets `+` when it has no sign and keeps its own sign otherwise |
| TimeParser.FixTimezoneOffsetSpec | time_parser.go:88-104 | on a whole-string match the result is the date-time immediately followed by the signed offset |
| TimeParser.FixUnmatched | time_parser.go:103 | text that does not match the pattern in full comes back unchanged |
| TimeParser.NoSpaceNoMatch | time_parser.go:11 | text without white space never matches |
| TimeParser.RepairedHasNoSpace | time_parser.go:101 | a repaired result holds no white space |
| TimeParser.FixTimezoneOffsetIdempotent | time_parser.go:88-104 | the repair is idempotent |
| TimeParser.FixKeepsSign | time_parser.go:97-101 | a signed offset keeps its sign and only the white space goes, so `…:32 -05:00` becomes `…:32-05:00` |
| TimeParser.FixAddsPlus | time_parser.go:97-101 | an unsigned offset is joined on with `+` |
| TimeParser.Prepare | time_parser.go:41-46 | the text the layouts see is the trimmed value, repaired only when it holds a space |
| TimeParser.PrepareKeeps | time_parser.go:41-46 | white-space-free text with no trimming to do is passed on as it is |
| TimeParser.PrepareRepairs | time_parser.go:41-46 | a date-time, a space and an unsigned offset are joined with `+` |
| TimeParser.SpacedStampTrimmed | time_parser.go:41 | a date-time, a space and an offset are already trimmed |
| TimeParser.PrepareSpacedOffset | time_parser.go:41-46 | a date, `T`, a clock, a fraction, a space and an unsigned offset are joined with `+` |
| TimeParser.PrepareIgnoresSurroundingSpace | time_parser.go:41 | preparing ignores white space around the value |
| TimeParser.ParseTime | time_parser.go:40-86 | a failure wraps ErrInvalidValue and names the trimmed, repaired value |
| TimeParser.ParsePrepared | time_parser.go:49-85 | a failure of the dispatch names the text it was given |
| TimeParser.ParseTimeIsFirstMatch | time_parser.go:40-86 | parseTime returns exactly what the first layout of `timeFormats` that parses the prepared text gives |
| TimeParser.FastPathsAgree | time_parser.go:49-83 | the guarded fast paths never change the answer of the fallback loop |
| TimeParser.RFC3339Leads | time_parser.go:49-62 | RFC3339 heads the list and RFC3339Nano follows it, so their fast path returns the first match |
| TimeParser.DateOnlyFirst | time_parser.go:65-69 | a ten-character date that DateOnly parses fails every earlier layout |
| TimeParser.TimeOnlyFirst | time_parser.go:72-76 | a clock that TimeOnly parses fails every earlier layout |
| TimeParser.LongLayoutsRejectShort | time_parser.go:13-37 | text shorter than 17 characters fails every date-and-clock layout |
| TimeParser.DatedLayoutsRejectClock | time_parser.go:13-37 | text with `:` at index 2 fails every layout that starts with a year |
| TimeParser.ParseTimeIgnoresSurroundingSpace | time_parser.go:41 | `parseTime(s)` equals `parseTime(trim(s))` |
| TimeParser.ParseTimeFails | time_parser.go:79-85 | parseTime fails iff no layout parses the prepared text |
| TimeParser.PreparedAccepts | time_parser.go:49-83 | text that some layout parses is accepted |
| TimeParser.ParseTimeAccepts | time_parser.go:40-86 | a value whose prepared text some layout parses is accepted |
| TimeParser.AcceptsClock | time_parser.go:72-76 | `hh:mm:ss` is accepted |
| TimeParser.AcceptsDate | time_parser.go:65-69 | `YYYY-MM-DD` with a day its month has is accepted |
| TimeParser.AcceptsLocalDateTime | time_parser.go:13-37 | a date, `T`, a clock and a fraction of up to nine digits are accepted |
| TimeParser.AcceptsSpacedDateTime | time_parser.go:13-37 | a date, a space and a clock are accepted |
| TimeParser.AcceptsZoned | time_parser.go:49-62 | a date-time with a fraction and `Z` or a signed offset is accepted |
| TimeParser.AcceptsSpacedOffset | time_parser.go:44-62 | a date-time whose `+` sign became a space is repaired and accepted |
| GoTime.FirstParse | time_parser.go:79-83 | the first-match search fails iff every layout fails, and otherwise returns the parse of a layout all of whose predecessors fail |
| GoTime.FirstParseSkips | time_setter.go:33-38 | layouts that fail at the head of the list do not change the first match |
| GoTime.ParseNeedsMinLen | time_parser.go:13-37 | a layout accepts no text shorter than its minimum length |
| GoTime.DateClockNeedsLength | time_parser.go:13-37 | a date-and-clock layout needs at least 17 characters |
| GoTime.YearFirstRejectsClock | time_parser.go:13-37 | a layout starting with a year rejects text with `:` at index 2 |
| GoTime.ParsesDateOnly | time_parser.go:65-69 | DateOnly parses a date whose day exists in its month |
| GoTime.ParsesTimeOnly | time_parser.go:72-76 | TimeOnly parses `hh:mm:ss` |
| GoTime.Atoi | time_parser.go:18 | text that is all digits reads as its decimal value |
| GoTime.ParsesSignedFraction | time_parser.go:18 | the fixed fraction slot of `2006-01-02T15:04:05.000` is read by atoi: a leading `+` is ignored, and a leading `-` fails the parse unless the digits after it are all zero |
| GoTime.PlusFractionExample | time_setter.go:17 | `2025-07-04T17:12:32.+12` parses under `2006-01-02T15:04:05.000` as 12 ms past the second |
| GoTime.MinusZeroFractionExample | time_setter.go:17 | under the same layout, `…32.-00` parses with no fraction |
| GoTime.MinusFractionExample | time_setter.go:17 | under the same layout, `…32.-12` fails (the fractional-second range error) |
| GoTime.ParsesDateClock | time_parser.go:13-37 | a date-and-clock layout parses its text, with any fraction after the seconds |
| GoTime.ParsesRFC3339 | time_parser.go:49-62 | RFC3339 parses a date-time with a fraction and `Z` or a signed offset |
| GoTime.ParsesSpacedOffset | time_setter.go:20 | a date, a space, a clock and a signed offset parse with that offset as the zone |
| GoTime.ParsesSpacedLiteral | time_setter.go:20 | a layout ending in literal text accepts only that text, and the time is then in UTC |
| GoTime.DateClockRejectsSeparator | time_parser.go:13-37 | a date followed by anything other than the layout's separator fails |
| GoTime.DateClockRejectsExtra | time_parser.go:13-37 | text after the seconds that is not a fraction fails a layout ending at the seconds |
| GoTime.DateOnlyRejectsExtra | time_parser.go:65-69 | DateOnly rejects a date with anything after it |
| GoTime.TimeOnlyRejectsDate | time_parser.go:72-76 | TimeOnly rejects text whose two leading digits are not followed by `:` |
| TimeSetter.FixTimezoneOffset | time_setter.go:47-52 | the repair keeps the length; on an end match it puts `+` in place of the white space and changes nothing else; otherwise the text is unchanged |
| TimeSetter.FixAddsPlus | time_setter.go:50-51 | text before the date-time is kept verbatim, and the white space before an unsigned offset becomes `+` |
| TimeSetter.FixKeepsSigned | time_setter.go:50 | an offset already written with a sign does not match, and the text is unchanged |
| TimeSetter.FixTimezoneOffsetIdempotent | time_setter.go:51 | the repair is idempotent |
| TimeSetter.FixKeeps | time_setter.go:50 | text without white space six characters from the end is unchanged |
| TimeSetter.FixSpacedOffset | time_setter.go:50-51 | a date-time, a space and an unsigned offset are joined with `+` |
| TimeSetter.FixKeepsSpacedOffset | time_setter.go:50 | a space-separated date and clock with a signed offset is left unchanged |
| TimeSetter.SetTime | time_setter.go:24-43 | setTime always repairs first and returns the first parse of the layouts as listed, in list order, or nothing (the invalid value) when every one fails |
| TimeSetter.SetTimeAccepts | time_setter.go:33-38 | a value whose repaired text some listed layout parses yields a time |
| TimeSetter.SetterAcceptsClock | time_setter.go:9-21 | `hh:mm:ss` yields a time from the setter as written |
| TimeSetter.SetterAcceptsDate | time_setter.go:9-21 | a date whose day exists yields a time from the setter as written |
| TimeSetter.SetterAcceptsLocalDateTime | time_setter.go:9-21 | a date, `T`, a clock and a fraction yield a time from the setter as written |
| TimeSetter.SetterAcceptsSpacedDateTime | time_setter.go:9-21 | a date, a space and a clock yield a time from the setter as written |
| TimeSetter.SetterAcceptsZoned | time_setter.go:9-21 | a date-time with `Z` or a signed offset yields a time from the setter as written |
| TimeSetter.SetterRepairs | time_setter.go:27 | a date-time whose `+` became a space is accepted whenever the repaired text parses |
| TimeSetter.SetterAcceptsSpacedOffset | time_setter.go:27-38 | a date-time with a fraction whose `+` sign became a space is repaired and yields a time from the setter as written |
| TimeSetter.SpacedOffsetFailsEarly | time_setter.go:9-21 | a space-separated date-time with an offset fails the first ten layouts |
| TimeSetter.SpacedOffsetFailsKinds | time_setter.go:9-21 | it fails DateTime, DateOnly, TimeOnly and every `T` layout |
| TimeSetter.SetTimeAsWritten | time_setter.go:24-43 | with the layouts as listed, setTime fails iff no listed layout parses the repaired value |
| TimeSetter.AsWrittenDropsOffset | time_setter.go:20 | as listed, a space-separated date-time with an offset is accepted only when the offset is literally `+07:00`, and then in UTC |
| TimeSetter.AsWrittenRejectsExample | time_setter.go:20 | as listed, `2025-07-04 17:12:32+05:00` is rejected |
| TimeSetter.SetTimeCorrected | time_setter.go:15-20 | with the two timezone layouts reading an offset, the setter fails iff none of the corrected layouts parses the repaired value |
| TimeSetter.SetTimeKeepsOffset | time_setter.go:20 | with the corrected layouts, a space-separated date-time with any offset parses with that offset as its zone |
| Parser.GetStructTag | parser.go:216-222 | the tag is the trimmed `qp` tag, and it is empty exactly when the trimmed tag is "" or "-" |
| Parser.ParseSpec | parser.go:36-62 | a decode leaves the destination a value of its type; a pointer to a time passes the pointer check and panics on the unexported location field |
| Parser.DecodeFields | parser.go:45-52 | the field loop leaves the struct of its type and never touches the fields before the one it starts from |
| Parser.DecodeField | parser.go:65-79 | a field keeps its type whichever parser handles it |
| Parser.DecodeTimeField | parser.go:107-159 | a time field keeps its type |
| Parser.DecodeStructField | parser.go:162-186 | a struct field keeps its type |
| Parser.DecodePrimitiveField | parser.go:189-213 | a primitive field keeps its type |
| Parser.Parse | parser.go:36-54 | the in-place decode leaves the destination and returns the outcome the specification function gives |
| Parser.ParseStruct | parser.go:45-52 | the in-place field loop agrees with the specification of the loop |
| Parser.ParseField | parser.go:65-79 | the in-place dispatch agrees with its specification |
| Parser.ParseTimeField | parser.go:107-159 | the in-place time field parser agrees with its specification |
| Parser.ParseStructField | parser.go:162-186 | the in-place struct field parser agrees with its specification |
| Parser.ParsePrimitiveField | parser.go:189-213 | the in-place primitive field parser agrees with its specification |
| Parser.ParseRejectsNonPointer | parser.go:56-62 | parse reports ErrNotPtr exactly when the destination is not a non-nil pointer to a type of struct kind (`time.Time` included), and then writes nothing |
| Parser.ParseTimePointer | parser.go:36-62 | a non-nil `*time.Time` (or pointer to a type defined over it) passes validateStructPointer, is left unwritten and panics: with Set when its time is UTC, whose location is nil (parser.go:166-168), with Interface otherwise (parser.go:176); a nil one gets ErrNotPtr |
| Parser.IsStructPointer | parser.go:56-62 | validateStructPointer accepts a non-nil pointer whose target is of struct kind |
| Parser.IsTimeType | parser.go:82-94 | a time type, once one pointer is looked through, is of struct kind |
| Parser.IsStructType | parser.go:97-104 | a struct type, once one pointer is looked through, is of struct kind |
| Parser.FieldDispatch | parser.go:70-104 | no shape is both a time type and a struct type; time, `*time`, struct and `*struct` each go to their own parser; a pointer to a pointer and any non-pointer kind other than struct go to the primitive parser |
| Parser.IsAllFieldsZero | parser.go:225-232 | every field is zero exactly when reflect's IsZero holds of the struct |
| Parser.AllFieldsZeroIsZero | parser.go:181-183 | all fields are zero exactly when the struct equals the zero value of its type |
| Shapes.ZeroUnique | parser.go:181-183 | a value of a type is zero exactly when it is that type's zero value |
| Parser.FieldErrorsArePlain | parser.go:65-79 | no field reports the ErrNotPtr sentinel |
| Parser.FieldsErrorsArePlain | parser.go:45-52 | no field of the loop reports the ErrNotPtr sentinel |
| Parser.FirstFailure | parser.go:45-52 | the first failing field lies within the fields |
| Parser.BeforeFirstFailure | parser.go:45-52 | every field before the first failure succeeds |
| Parser.AtFirstFailure | parser.go:45-52 | the first failure does fail |
| Parser.FieldsInOrder | parser.go:45-52 | each field up to and including the first failing one holds its own decode |
| Parser.FieldsAfter | parser.go:45-52 | fields after the first failing one are not touched |
| Parser.FieldsEndAsFirstFailure | parser.go:45-52 | the loop ends as the first failing field ends, and succeeds when none fails |
| Parser.FieldsStop | parser.go:48-50 | one failing field ends the loop with its own outcome |
| Parser.FieldsStep | parser.go:45-52 | one successful field moves the loop on, with the first failure unchanged |
| Parser.FirstFailureFrom | parser.go:45-52 | the first failure from j on depends only on the fields from j on |
| Parser.QuietFieldUnchanged | parser.go:117-120 | a field none of whose keys is present is left exactly as it was, and a nil struct pointer stays nil |
| Parser.QuietFieldsUnchanged | parser.go:45-52 | a struct none of whose keys is present is left exactly as it was |
| Parser.QuietParseUnchanged | parser.go:36-54 | a query with none of a struct's keys leaves the struct as it was |
| Parser.KeyedFieldSpec | parser.go:189-213 | a time or primitive field with no tag, `-`, or an absent or empty key is unchanged; a keyed unexported primitive fails with "cannot set field <name>, be sure it is exported"; a keyed unexported time field fails or panics; a keyed exported primitive holds exactly what `setValue` wrote and fails exactly with its error followed by the field's name and type; a keyed exported time field whose `setValue` fails fails with that error, named the same way |
| Parser.StructFieldSpec | parser.go:162-186 | a struct field ignores its tag, and an unexported one panics and is unchanged |
| Parser.StructPointerSpec | parser.go:162-186 | the result is the pointer to the recursive field-by-field decode of the target (a zero struct for nil), with its outcome, except that a nil pointer whose decode succeeds with every field zero stays nil; so a non-nil pointer is never reset and a failure keeps the allocation |
| Parser.TimeFieldSpec | parser.go:107-159 | a keyed time field takes the parsed time; a pointer ends nil exactly when that time is the zero time; on failure a time keeps its value and a nil pointer stays allocated to the zero time |

## Left out

- Float parsing: `setFloat` calls `strconv.ParseFloat`. Floating point is a parameter of the model (`parseFloat`).
- PrimitiveSetter.SetFloat: has no contract of its own, because its behaviour is that of the float parser it is given.
- TimeParser.FixTimezoneOffset: states nothing in its own contract. Its properties are the lemmas beside it.
- `setValue`, which parser.go calls at lines 134 and 208, is not part of this model. It is the `Coercion` parameter. The only assumption is that it returns values of the target's type.
- `ParseRequest` and `ParseURL` (parser.go:19-34) and qparser.go: HTTP and `url.Parse` adapters with no decision logic.
- `sync.Map` concurrency in cache.go: the cache is a sequential map with insert-if-absent. Races are not modelled.
- parser.go does not consult cache.go, so the schema and the decode are modelled apart, as in the code.
- Pointer aliasing: values are trees written back through `Cell`s. Two fields sharing one target are not modelled.
- `time.Time` is a stamp of wall-clock fields and a zone. Instants, locations, monotonic readings and date arithmetic beyond days-in-month are left out. The zero time is January 1 of year 1, UTC.
- Parser.TimeWalkPanic: a zero numeric offset is the `UTC` zone here. In Go, a time parsed with `+00:00` has a non-nil fixed location, so a pointer to it panics on Interface rather than on Set.
- `time.Parse` is a fixed-pattern recognizer for the layouts the two time files use. Month names, weekdays, 12-hour clocks and the other layout directives are not modelled.
- The regular expressions are hand-written character-class matchers. The regexp engine is not modelled.
- A nil `any` destination: a destination is a value of some shape. The non-pointer and nil-pointer cases are modelled.
- Reflect panics carry no message. They are the `Panic` outcome, with its cause.
- `int` and `uint` (bit size 0) are 64 bits wide, as on a 64-bit platform.
- `TypeString` prints a struct by its bare name, without its package path.
- Strings are sequences of code points, while Go indexes the bytes of UTF-8 text. The length and index guards of the fast paths in time_parser.go:49-76 count bytes in Go and code points here. `TimeParser.FastPathsAgree` shows those guards never change the result.
- `%q` quoting is modelled for plain ASCII names only; escapes are left out.
- A type convertible to `time.Time` is a `Time` shape with an alias name. Conversion of other struct types is not modelled.

## Findings

| source | as written | input that shows it | evidently intended | confidence | as-written member | corrected member |
|---|---|---|---|---|---|---|
| time_setter.go:15-20 | the layouts `2006-01-02T15:04:05+07:00` and `2006-01-02 15:04:05+07:00` use `+07:00`, which in a Go layout is literal text, not an offset directive | `2025-07-04 17:12:32+05:00` fails every layout, and `2025-07-04 17:12:32+07:00` parses as 17:12:32 UTC | the comments call them timezone formats: the offset directive `-07:00`, so any offset is read and kept as the zone | not executed | TimeSetter.AsWrittenRejectsExample | TimeSetter.SetTimeKeepsOffset |

`TimeSetter.SetTime` loops over the layouts as listed and is proved equal to `TimeSetter.SetTimeAsWritten`. `TimeSetter.SetTimeCorrected` tries the corrected list instead. Its two timezone entries read an offset; the other nine layouts are the same in both lists.
