# Lifecycle `Transition` element — a Dafny model

This project models the `Transition` element of a bucket lifecycle
configuration, as implemented in `pkg/bucket/lifecycle/transition.go`. The
element names a storage class plus one trigger. The trigger is a day count
(`TransitionDays`) or a calendar date (`TransitionDate`). The model covers
three things:

- the per-field XML decoders and encoders;
- the element's own decode, which fills a fresh struct and marks it `set`;
- `Validate`, which runs separately and checks the combination of fields.

Modules:

- `Wrappers` (`wrappers.dfy`): `Option` and `Result`.
- `Timestamps` (`timestamps.dfy`): the part of Go's `time.Time` the element reads. That is the wall-clock fields, the location name, the zero time, and "midnight in UTC".
- `Lifecycle` (`transition.dfy`): the element itself. It holds the errors, the field decoders and encoders, the decode over the element's children, `UnmarshalTransition`, `MarshalTransition`, the null predicates and `Validate`.
- `TransitionLemmas` (`transition_lemmas.dfy`): properties that relate several calls. These are:
  - how a decode's outcome follows from the document's children;
  - the encode/decode round trip;
  - what validation accepts after a decode;
  - a few concrete documents.

The XML layer is abstract. A decode receives the `<Transition>` element's
children in document order. Each child is already extracted, as a `Content`:
either a value of the field's Go type, or the XML decoder's own failure
(`Unreadable`). The order matters. The first child that fails aborts the
decode with its error. A later child with the same name overwrites an earlier
one. Unknown children are skipped. An encode returns the children it would
write, or `None` when the whole element is suppressed.

Go's `time.Parse(time.RFC3339, ·)` and `Time.Format(time.RFC3339)` are
parameters (`parse`, `format`) and are not modelled. The same holds for the
text form of integers. The Go `int` behind the day count is the 64-bit range
(`GoInt`).

Three behaviours of the code worth stating explicitly:

- A failed decode leaves the receiver exactly as it was
  (`transition.go:122-127`). It does not reset the receiver to unset: a
  receiver that was set before stays set.
- The midnight check compares the location's name with `"UTC"`
  (`transition.go:55`). It does not test for a zero offset.
- The error for a malformed `<Days>` is whatever the XML decoder returns
  (`transition.go:79-82`). It is passed through unchanged (`XmlDecodeError`).

## Model

| member | source | states |
|---|---|---|
| `Lifecycle.UnmarshalDays` | pkg/bucket/lifecycle/transition.go:77-88 | A day count is accepted iff the decoder produced a value and it is not negative; the accepted count is that value, so it is ≥ 0 and zero is allowed. A decoder failure is passed through; a negative count gives `errTransitionInvalidDays`. |
| `Lifecycle.MarshalDays` | pkg/bucket/lifecycle/transition.go:92-97 | Nothing is emitted iff the count is zero; otherwise the count itself is emitted. |
| `Lifecycle.UnmarshalDate` | pkg/bucket/lifecycle/transition.go:38-61 | A date is accepted iff its text parses and the parsed time is midnight with location "UTC"; the stored time is the parsed one. Text that does not parse gives `errTransitionInvalidDate` before any midnight test. A parsed non-midnight or non-UTC time gives `errTransitionDateNotMidnight`. A decoder failure passes through. |
| `Lifecycle.MarshalDate` | pkg/bucket/lifecycle/transition.go:65-70 | Nothing is emitted iff the date is the zero time; otherwise its RFC 3339 text is emitted. |
| `Lifecycle.ReadChild` | pkg/bucket/lifecycle/transition.go:100-107 | Each child updates only the field of its own name. A `<Days>` or `<Date>` child gives exactly the outcome of its field decoder: that decoder's error unchanged, or an update carrying the decoded value. A read count is ≥ 0 and a read date is midnight UTC. An unreadable `<StorageClass>` gives the XML decoder's error, and a readable one sets its text. Unknown children are skipped, and a tokeniser failure is reported unchanged. |
| `Lifecycle.DecodeChildren` | pkg/bucket/lifecycle/transition.go:120-125 | Filling the struct from the children never touches `set`. If the starting struct has a non-negative count and a midnight-UTC date, so does the result. |
| `Lifecycle.UnmarshalTransition` | pkg/bucket/lifecycle/transition.go:119-129 | On error the receiver is unchanged. On success the receiver is set and has the decoded field shape. The receiver is set afterwards iff it was set before or the decode succeeded. |
| `TransitionLemmas.UnmarshalTransitionSpec` | pkg/bucket/lifecycle/transition.go:119-129 | A failed decode returns, unchanged, the error of the first child that is not accepted, and every earlier child is accepted. A successful decode sets the receiver to the freshly decoded struct with `set` added. Its count is the last `<Days>` value or 0. Its date is the parse of the last `<Date>` text or the zero time. Its class is the last `<StorageClass>` value or "". |
| `Lifecycle.MarshalTransition` | pkg/bucket/lifecycle/transition.go:110-116 | The element is suppressed iff it is not set. It never emits an unknown or broken child. |
| `Lifecycle.MarshalTransitionFields` | pkg/bucket/lifecycle/transition.go:100-116 | A set element has one `Days` child iff the count is not null, one `Date` child, holding the formatted date, iff the date is not null, and one `StorageClass` child iff the class is not empty (omitempty). |
| `Timestamps.IsMidnightUtc` | pkg/bucket/lifecycle/transition.go:52-55 | The midnight test: clock, nanosecond and location name are checked together, and the zero time passes it. |
| `Lifecycle.IsDaysNull` | pkg/bucket/lifecycle/transition.go:152-154 | The count is null exactly when the encoder leaves out `<Days>`, and a null count is one that decoding accepts. |
| `Lifecycle.IsDateNull` | pkg/bucket/lifecycle/transition.go:157-159 | The date is null exactly when the encoder leaves out `<Date>`, whatever the text format, and a null date is midnight UTC. |
| `Lifecycle.IsNull` | pkg/bucket/lifecycle/transition.go:162-164 | Both triggers are null exactly when the encoder writes neither `<Days>` nor `<Date>`. |
| `Lifecycle.Validate` | pkg/bucket/lifecycle/transition.go:132-149 | Succeeds iff the element is unset, or exactly one of count/date is non-null and the class is non-empty. For a set element the checks run in order: both null gives `errXMLNotWellFormed`, then both non-null gives `errTransitionInvalid`, then an empty class gives `errXMLNotWellFormed`. It never returns any other error. |
| `TransitionLemmas.DecodeSucceedsIff` | pkg/bucket/lifecycle/transition.go:120-125 | The element decodes iff every child, read on its own, is accepted, whatever the starting struct. |
| `TransitionLemmas.DecodeFailsAtFirstBadChild` | pkg/bucket/lifecycle/transition.go:120-125 | A failed decode returns, unchanged, the error of the first child in document order that is not accepted. |
| `TransitionLemmas.DecodeLastDaysWins` | pkg/bucket/lifecycle/transition.go:77-88 | After a successful decode the count is the value of the last `<Days>` child, or the starting value when there is none. |
| `TransitionLemmas.DecodeLastDateWins` | pkg/bucket/lifecycle/transition.go:38-61 | After a successful decode the date is what the last `<Date>` child's text parses to, or the starting value when there is none. |
| `TransitionLemmas.DecodeLastStorageClassWins` | pkg/bucket/lifecycle/transition.go:104 | After a successful decode the class is the last `<StorageClass>` child's value, or the starting value when there is none. |
| `TransitionLemmas.DecodeIgnoresReceiver` | pkg/bucket/lifecycle/transition.go:120-128 | Decoding starts from a fresh struct, so any two receivers give the same error or the same decoded element. |
| `TransitionLemmas.MarshalUnmarshalRoundTrip` | pkg/bucket/lifecycle/transition.go:109-129 | Take a set element with a non-negative count and a midnight-UTC date. Encoding it and decoding the result gives it back, given that the time library reads its own date text back. |
| `TransitionLemmas.DecodedElementRoundTrips` | pkg/bucket/lifecycle/transition.go:109-129 | Every successfully decoded element survives a second trip through encoding and decoding, under the same assumption on the time library. |
| `TransitionLemmas.DecodedValidateIff` | pkg/bucket/lifecycle/transition.go:131-149 | A decoded document validates iff exactly one trigger is non-null and the class is non-empty. Here the triggers are the last `<Days>` and the last `<Date>` child, and the class is the last `<StorageClass>` child. |
| `TransitionLemmas.NullPredicatesIgnoreSet` | pkg/bucket/lifecycle/transition.go:151-164 | `IsDaysNull`, `IsDateNull` and `IsNull` do not depend on `set`, and `IsNull` is the conjunction of the other two. |
| `TransitionLemmas.EmptyElementDecodesButIsMalformed` | pkg/bucket/lifecycle/transition.go:132-139 | `<Transition></Transition>` decodes to a set, all-zero element, and validation rejects it with `errXMLNotWellFormed`. |
| `TransitionLemmas.NegativeDaysRejected` | pkg/bucket/lifecycle/transition.go:83-85 | `<Days>-1</Days>` fails with `errTransitionInvalidDays` and leaves the receiver untouched. |
| `TransitionLemmas.EmptyStorageClassIsMalformed` | pkg/bucket/lifecycle/transition.go:145-147 | A count with an empty class decodes, and validation rejects it with `errXMLNotWellFormed`. |
| `TransitionLemmas.BothTriggersConflict` | pkg/bucket/lifecycle/transition.go:141-144 | A non-zero count together with a non-zero midnight-UTC date decodes, and validation rejects it with `errTransitionInvalid`. |

## Left out

- XML mechanics: tokenising, `DecodeElement` and `EncodeElement`, the `XMLName` field and the `transitionWrapper` conversion are the `encoding/xml` library's job. They are replaced by the child list described above.
- Integer text: turning a `<Days>` text into a Go `int` is the XML decoder's job. Non-numeric or out-of-range text reaches the model as `Unreadable`.
- Date text: `time.Parse` with the RFC 3339 layout (section 5.6 of RFC 3339) and `Format` belong to the Go standard library and are parameters here.
- MarshalUnmarshalRoundTrip: assumes `parse(format(d)) == Some(d)` for the one date involved. The time library's own round trip is not modelled.
- MarshalUnmarshalRoundTrip: also assumes the XML layer reads back the storage class text it wrote. Go's encoder writes U+FFFD in place of characters XML cannot carry, so a class holding such characters would not come back unchanged.
- `IsZero`: modelled as equality with January 1, year 1, 00:00:00 in the location named "UTC". Go compares instants, so a time in another location that denotes the same instant is not recognised as zero here. Decode only ever stores times whose location is "UTC", and for those the two agree.
- Location names: only the name `Location().String()` reports is modelled, not how Go names offset-only zones.
- Error values: `Errorf` messages and `errXMLNotWellFormed` are defined outside this file and appear only as constructors of `Error`.
- `Validate` and the null predicates have value receivers and no side effects. As Dafny functions they cannot change the element and always give the same result, so no separate lemma states this.
- Concurrency: there is none in the code, so none is modelled.
