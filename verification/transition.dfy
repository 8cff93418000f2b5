/** The lifecycle `Transition` element: a storage class plus one trigger, a
    day count or a calendar date, with its XML decoding, encoding and
    validation.

    The XML layer is abstract. Decoding receives the `<Transition>` element's
    children in document order, each already extracted by the XML decoder
    (or carrying the decoder's own failure); encoding returns the children
    it would write, or nothing when the whole element is suppressed.
    Go's `time.Parse(time.RFC3339, ·)` and `Time.Format(time.RFC3339)` are
    passed in as `parse` and `format`. */
module Lifecycle {
  import opened Wrappers
  import opened Timestamps

  /** Go's `int` on the 64-bit platforms the server targets; the XML decoder
      rejects a `<Days>` text outside this range before the model sees it. */
  type GoInt = x: int | -0x8000_0000_0000_0000 <= x <= 0x7fff_ffff_ffff_ffff

  /** The errors the element can report. `XmlDecodeError` is whatever the XML
      decoder itself returned; it is passed through unchanged. */
  datatype Error =
    | XmlDecodeError(cause: string)
    | TransitionInvalidDays          // errTransitionInvalidDays
    | TransitionInvalidDate          // errTransitionInvalidDate
    | TransitionInvalid              // errTransitionInvalid
    | TransitionDateNotMidnight      // errTransitionDateNotMidnight
    | XmlNotWellFormed               // errXMLNotWellFormed

  /** The content of one child element as the XML decoder hands it over:
      a value of the field's Go type, or the decoder's failure to produce one
      (a non-numeric or out-of-range `<Days>`, broken markup inside). */
  datatype Content<+T> = Value(v: T) | Unreadable(cause: string)

  /** One child of `<Transition>`, in document order. `Unknown` is an element
      the struct has no field for, which the XML decoder skips; `Broken` is a
      failure of the XML tokeniser itself. */
  datatype Child =
    | DaysElem(days: Content<GoInt>)
    | DateElem(date: Content<string>)
    | StorageClassElem(storageClass: Content<string>)
    | Unknown
    | Broken(cause: string)

  /** The Go struct `Transition`. `days` is the `TransitionDays` field, `date`
      the time inside the `TransitionDate` field, and `isSet` the unexported `set` flag
      recording that the element was decoded from a document. */
  datatype Transition = Transition(days: GoInt, date: Time, storageClass: string, isSet: bool)

  /** The zero value of the struct, which is what decoding starts from. */
  const Blank: Transition := Transition(0, ZeroTime, "", false)

  /** The shape of every value decoding can produce: a non-negative day count
      and a date that is midnight UTC (the zero time is one). */
  predicate FieldInvariant(t: Transition) {
    t.days >= 0 && IsMidnightUtc(t.date)
  }

  /** A Go method with a pointer receiver: the receiver after the call and
      the error returned (None for nil). */
  datatype Unmarshalled = Unmarshalled(receiver: Transition, err: Option<Error>)

  // ---------------------------------------------------------------------
  // TransitionDays

  /** `TransitionDays.UnmarshalXML`: accepts any count that is not negative. */
  function UnmarshalDays(content: Content<GoInt>): (r: Result<GoInt, Error>)
    ensures r.Success? <==> content.Value? && content.v >= 0
    ensures r.Success? ==> r.value == content.v
    ensures content.Unreadable? ==> r == Failure(XmlDecodeError(content.cause))
    ensures content.Value? && content.v < 0 ==> r == Failure(TransitionInvalidDays)
  {
    match content
    case Unreadable(cause) => Failure(XmlDecodeError(cause))
    case Value(n) => if n < 0 then Failure(TransitionInvalidDays) else Success(n)
  }

  /** `TransitionDays.MarshalXML`: the value handed to the encoder, if any. */
  function MarshalDays(days: GoInt): (r: Option<GoInt>)
    ensures r.None? <==> days == 0
    ensures r.Some? ==> r.value == days
  {
    if days == 0 then None else Some(days)
  }

  // ---------------------------------------------------------------------
  // TransitionDate

  /** `TransitionDate.UnmarshalXML`: the text must parse as an RFC 3339
      timestamp, and only then must it be exactly midnight in UTC. */
  function UnmarshalDate(content: Content<string>, parse: string -> Option<Time>): (r: Result<Time, Error>)
    ensures r.Success? <==>
              content.Value? && parse(content.v).Some? && IsMidnightUtc(parse(content.v).value)
    ensures r.Success? ==> parse(content.v) == Some(r.value)
    ensures content.Unreadable? ==> r == Failure(XmlDecodeError(content.cause))
    ensures content.Value? && parse(content.v).None? ==> r == Failure(TransitionInvalidDate)
    ensures content.Value? && parse(content.v).Some? && !IsMidnightUtc(parse(content.v).value) ==>
              r == Failure(TransitionDateNotMidnight)
  {
    match content
    case Unreadable(cause) => Failure(XmlDecodeError(cause))
    case Value(text) =>
      match parse(text)
      case None => Failure(TransitionInvalidDate)
      case Some(t) =>
        if IsMidnightUtc(t) then Success(t)
        else Failure(TransitionDateNotMidnight)
  }

  /** `TransitionDate.MarshalXML`: the RFC 3339 text handed to the encoder, if any. */
  function MarshalDate(date: Time, format: Time -> string): (r: Option<string>)
    ensures r.None? <==> IsZero(date)
    ensures r.Some? ==> r.value == format(date)
  {
    if IsZero(date) then None else Some(format(date))
  }

  // ---------------------------------------------------------------------
  // Transition

  /** What one successfully read child does to the struct being filled. */
  datatype FieldUpdate = SetDays(n: GoInt) | SetDate(t: Time) | SetStorageClass(s: string) | Skip

  /** The XML decoder routing one child to its field's decoder. */
  function ReadChild(c: Child, parse: string -> Option<Time>): (r: Result<FieldUpdate, Error>)
    ensures r.Success? ==>
              && (r.value.SetDays? <==> c.DaysElem?)
              && (r.value.SetDate? <==> c.DateElem?)
              && (r.value.SetStorageClass? <==> c.StorageClassElem?)
    ensures r.Success? && r.value.SetDays? ==> r.value.n >= 0
    ensures r.Success? && r.value.SetDate? ==> IsMidnightUtc(r.value.t)
    ensures c.DaysElem? ==>
              r == (match UnmarshalDays(c.days) case Success(n) => Success(SetDays(n)) case Failure(e) => Failure(e))
    ensures c.DaysElem? && r.Success? ==> r.value == SetDays(c.days.v)
    ensures c.DateElem? ==>
              r == (match UnmarshalDate(c.date, parse) case Success(t) => Success(SetDate(t)) case Failure(e) => Failure(e))
    ensures c.StorageClassElem? && c.storageClass.Unreadable? ==>
              r == Failure(XmlDecodeError(c.storageClass.cause))
    ensures c.StorageClassElem? && c.storageClass.Value? ==> r == Success(SetStorageClass(c.storageClass.v))
    ensures c.Broken? ==> r == Failure(XmlDecodeError(c.cause))
    ensures c.Unknown? ==> r == Success(Skip)
  {
    match c
    case DaysElem(content) =>
      (match UnmarshalDays(content)
       case Success(n) => Success(SetDays(n))
       case Failure(e) => Failure(e))
    case DateElem(content) =>
      (match UnmarshalDate(content, parse)
       case Success(t) => Success(SetDate(t))
       case Failure(e) => Failure(e))
    case StorageClassElem(content) =>
      (match content
       case Value(s) => Success(SetStorageClass(s))
       case Unreadable(cause) => Failure(XmlDecodeError(cause)))
    case Unknown => Success(Skip)
    case Broken(cause) => Failure(XmlDecodeError(cause))
  }

  function Apply(t: Transition, u: FieldUpdate): Transition {
    match u
    case SetDays(n) => t.(days := n)
    case SetDate(d) => t.(date := d)
    case SetStorageClass(s) => t.(storageClass := s)
    case Skip => t
  }

  /** The XML decoder filling the struct from its children in document order:
      the first child that fails aborts the whole decode with its error. */
  function DecodeChildren(acc: Transition, cs: seq<Child>, parse: string -> Option<Time>): (r: Result<Transition, Error>)
    ensures r.Success? ==> r.value.isSet == acc.isSet
    ensures r.Success? && FieldInvariant(acc) ==> FieldInvariant(r.value)
    decreases |cs|
  {
    if |cs| == 0 then Success(acc)
    else
      match ReadChild(cs[0], parse)
      case Failure(e) => Failure(e)
      case Success(u) => DecodeChildren(Apply(acc, u), cs[1..], parse)
  }

  /** `Transition.UnmarshalXML`: decodes into a fresh struct and, only if that
      succeeds, overwrites the receiver with it and marks it set. */
  function UnmarshalTransition(receiver: Transition, cs: seq<Child>, parse: string -> Option<Time>): (r: Unmarshalled)
    ensures r.err.Some? ==> r.receiver == receiver
    ensures r.err.None? ==> r.receiver.isSet && FieldInvariant(r.receiver)
    ensures r.receiver.isSet <==> receiver.isSet || r.err.None?
  {
    match DecodeChildren(Blank, cs, parse)
    case Failure(e) => Unmarshalled(receiver, Some(e))
    case Success(w) => Unmarshalled(w.(isSet := true), None)
  }

  /** The values a selector picks out of a child list, in document order. */
  function Collect<T>(cs: seq<Child>, pick: Child -> Option<T>): seq<T>
    decreases |cs|
  {
    if |cs| == 0 then []
    else (match pick(cs[0]) case Some(x) => [x] case None => []) + Collect(cs[1..], pick)
  }

  /** Collecting over a concatenation collects each part in turn. */
  lemma {:induction false} CollectAppend<T>(a: seq<Child>, b: seq<Child>, pick: Child -> Option<T>)
    ensures Collect(a + b, pick) == Collect(a, pick) + Collect(b, pick)
    decreases |a|
  {
    if |a| > 0 {
      assert (a + b)[1..] == a[1..] + b;
      CollectAppend(a[1..], b, pick);
    } else {
      assert a + b == b;
    }
  }

  function PickDays(c: Child): Option<GoInt> {
    if c.DaysElem? && c.days.Value? then Some(c.days.v) else None
  }

  function PickDate(c: Child): Option<string> {
    if c.DateElem? && c.date.Value? then Some(c.date.v) else None
  }

  function PickStorageClass(c: Child): Option<string> {
    if c.StorageClassElem? && c.storageClass.Value? then Some(c.storageClass.v) else None
  }

  /** The values of the readable `<Days>` children, in document order. */
  function DaysValues(cs: seq<Child>): seq<GoInt> {
    Collect(cs, PickDays)
  }

  /** The texts of the readable `<Date>` children, in document order. */
  function DateTexts(cs: seq<Child>): seq<string> {
    Collect(cs, PickDate)
  }

  /** The values of the readable `<StorageClass>` children, in document order. */
  function StorageClassValues(cs: seq<Child>): seq<string> {
    Collect(cs, PickStorageClass)
  }

  /** `Transition.MarshalXML`: the children written for the element, or
      nothing at all when the element was never decoded. The unexported `set`
      flag is not written; `StorageClass` is tagged omitempty. */
  function MarshalTransition(t: Transition, format: Time -> string): (r: Option<seq<Child>>)
    ensures r.None? <==> !t.isSet
    ensures r.Some? ==> forall i :: 0 <= i < |r.value| ==> !r.value[i].Unknown? && !r.value[i].Broken?
  {
    if !t.isSet then None
    else Some(DaysChild(t) + DateChild(t, format) + StorageClassChild(t))
  }

  function DaysChild(t: Transition): seq<Child> {
    match MarshalDays(t.days) case Some(n) => [DaysElem(Value(n))] case None => []
  }

  function DateChild(t: Transition, format: Time -> string): seq<Child> {
    match MarshalDate(t.date, format) case Some(s) => [DateElem(Value(s))] case None => []
  }

  function StorageClassChild(t: Transition): seq<Child> {
    if t.storageClass == "" then [] else [StorageClassElem(Value(t.storageClass))]
  }

  /** Collecting over a list of at most one child. */
  lemma CollectSingle<T>(c: Child, pick: Child -> Option<T>)
    ensures Collect([c], pick) == (match pick(c) case Some(x) => [x] case None => [])
  {
    assert [c][1..] == [];
  }

  /** Collecting over the three optional pieces of an encoded element. */
  lemma CollectPieces<T>(a: seq<Child>, b: seq<Child>, c: seq<Child>, pick: Child -> Option<T>)
    ensures Collect(a + b + c, pick) == Collect(a, pick) + Collect(b, pick) + Collect(c, pick)
  {
    CollectAppend(a, b, pick);
    CollectAppend(a + b, c, pick);
  }

  lemma CollectDaysChild<T>(t: Transition, pick: Child -> Option<T>)
    ensures Collect(DaysChild(t), pick) == if IsDaysNull(t) then [] else Collect([DaysElem(Value(t.days))], pick)
  {
  }

  lemma CollectDateChild<T>(t: Transition, format: Time -> string, pick: Child -> Option<T>)
    ensures Collect(DateChild(t, format), pick) == if IsDateNull(t) then [] else Collect([DateElem(Value(format(t.date)))], pick)
  {
  }

  lemma CollectStorageClassChild<T>(t: Transition, pick: Child -> Option<T>)
    ensures Collect(StorageClassChild(t), pick)
              == if t.storageClass == "" then [] else Collect([StorageClassElem(Value(t.storageClass))], pick)
  {
  }

  /** A set element carries one `<Days>` child exactly when the count is not
      null, one `<Date>` child exactly when the date is not null, and one
      `<StorageClass>` child exactly when the class is not empty. */
  lemma MarshalTransitionFields(t: Transition, format: Time -> string)
    requires t.isSet
    ensures DaysValues(MarshalTransition(t, format).value) == (if IsDaysNull(t) then [] else [t.days])
    ensures DateTexts(MarshalTransition(t, format).value) == (if IsDateNull(t) then [] else [format(t.date)])
    ensures StorageClassValues(MarshalTransition(t, format).value)
              == (if t.storageClass == "" then [] else [t.storageClass])
  {
    var days, date, sc := DaysChild(t), DateChild(t, format), StorageClassChild(t);
    var d, e, c := DaysElem(Value(t.days)), DateElem(Value(format(t.date))), StorageClassElem(Value(t.storageClass));
    CollectSingle(d, PickDays); CollectSingle(d, PickDate); CollectSingle(d, PickStorageClass);
    CollectSingle(e, PickDays); CollectSingle(e, PickDate); CollectSingle(e, PickStorageClass);
    CollectSingle(c, PickDays); CollectSingle(c, PickDate); CollectSingle(c, PickStorageClass);
    CollectDaysChild(t, PickDays); CollectDaysChild(t, PickDate); CollectDaysChild(t, PickStorageClass);
    CollectDateChild(t, format, PickDays); CollectDateChild(t, format, PickDate); CollectDateChild(t, format, PickStorageClass);
    CollectStorageClassChild(t, PickDays); CollectStorageClassChild(t, PickDate); CollectStorageClassChild(t, PickStorageClass);
    CollectPieces(days, date, sc, PickDays);
    CollectPieces(days, date, sc, PickDate);
    CollectPieces(days, date, sc, PickStorageClass);
  }

  // ---------------------------------------------------------------------
  // Validation

  /** `Transition.IsDaysNull`: the count is null exactly when the encoder
      leaves out `<Days>`, and a null count is itself a count decoding accepts. */
  predicate IsDaysNull(t: Transition)
    ensures IsDaysNull(t) <==> MarshalDays(t.days).None?
    ensures IsDaysNull(t) ==> UnmarshalDays(Value(t.days)) == Success(t.days)
  {
    t.days == 0
  }

  /** `Transition.IsDateNull`: the date is null exactly when the encoder
      leaves out `<Date>`, whatever the text format, and a null date is
      itself midnight UTC. */
  predicate IsDateNull(t: Transition)
    ensures forall format: Time -> string :: IsDateNull(t) <==> MarshalDate(t.date, format).None?
    ensures IsDateNull(t) ==> IsMidnightUtc(t.date)
  {
    IsZero(t.date)
  }

  /** `Transition.IsNull`: neither trigger is there, so the encoder writes
      neither `<Days>` nor `<Date>`. */
  predicate IsNull(t: Transition)
    ensures forall format: Time -> string ::
              IsNull(t) <==> MarshalDays(t.days).None? && MarshalDate(t.date, format).None?
  {
    IsDaysNull(t) && IsDateNull(t)
  }

  /** `Transition.Validate`: an unset element is always valid; a set one needs
      exactly one trigger and a storage class. */
  function Validate(t: Transition): (r: Option<Error>)
    ensures r.None? <==> !t.isSet || (IsDaysNull(t) != IsDateNull(t) && t.storageClass != "")
    ensures r.Some? ==> r.value == XmlNotWellFormed || r.value == TransitionInvalid
    ensures t.isSet && IsNull(t) ==> r == Some(XmlNotWellFormed)
    ensures t.isSet && !IsDaysNull(t) && !IsDateNull(t) ==> r == Some(TransitionInvalid)
    ensures t.isSet && IsDaysNull(t) != IsDateNull(t) && t.storageClass == "" ==> r == Some(XmlNotWellFormed)
  {
    if !t.isSet then None
    else if IsDaysNull(t) && IsDateNull(t) then Some(XmlNotWellFormed)
    else if !IsDaysNull(t) && !IsDateNull(t) then Some(TransitionInvalid)
    else if t.storageClass == "" then Some(XmlNotWellFormed)
    else None
  }
}
