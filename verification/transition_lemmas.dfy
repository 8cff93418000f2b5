/** Properties of the lifecycle `Transition` element that relate several
    calls: how the decoder's outcome follows from the children of the
    document, the encode/decode round trip, and what validation accepts. */
module TransitionLemmas {
  import opened Wrappers
  import opened Timestamps
  import opened Lifecycle

  /** Decoding succeeds exactly when every child, taken on its own, is read
      successfully; where the struct starts does not matter. */
  lemma {:induction false} DecodeSucceedsIff(acc: Transition, cs: seq<Child>, parse: string -> Option<Time>)
    ensures DecodeChildren(acc, cs, parse).Success? <==>
              forall i :: 0 <= i < |cs| ==> ReadChild(cs[i], parse).Success?
    decreases |cs|
  {
    if |cs| > 0 {
      match ReadChild(cs[0], parse)
      case Failure(_) =>
      case Success(u) =>
        DecodeSucceedsIff(Apply(acc, u), cs[1..], parse);
        assert forall i :: 1 <= i < |cs| ==> cs[i] == cs[1..][i - 1];
    }
  }

  /** A failed decode reports the error of the first child that could not be
      read, unchanged. */
  lemma {:induction false} DecodeFailsAtFirstBadChild(acc: Transition, cs: seq<Child>, parse: string -> Option<Time>)
    ensures var r := DecodeChildren(acc, cs, parse);
      r.Failure? ==>
        exists k :: 0 <= k < |cs| && ReadChild(cs[k], parse) == Failure(r.error) &&
          forall i :: 0 <= i < k ==> ReadChild(cs[i], parse).Success?
    decreases |cs|
  {
    if |cs| > 0 {
      match ReadChild(cs[0], parse)
      case Failure(e) =>
        assert ReadChild(cs[0], parse) == Failure(DecodeChildren(acc, cs, parse).error);
      case Success(u) =>
        var r := DecodeChildren(Apply(acc, u), cs[1..], parse);
        DecodeFailsAtFirstBadChild(Apply(acc, u), cs[1..], parse);
        if r.Failure? {
          var k :| 0 <= k < |cs[1..]| && ReadChild(cs[1..][k], parse) == Failure(r.error) &&
                   forall i :: 0 <= i < k ==> ReadChild(cs[1..][i], parse).Success?;
          assert forall i :: 1 <= i < k + 1 ==> cs[i] == cs[1..][i - 1];
          assert ReadChild(cs[k + 1], parse) == Failure(r.error);
        }
    }
  }

  /** Collecting over a non-empty list: the head's pick followed by the rest. */
  lemma CollectUnfold<T>(cs: seq<Child>, pick: Child -> Option<T>)
    requires |cs| > 0
    ensures Collect(cs, pick) == (match pick(cs[0]) case Some(x) => [x] case None => []) + Collect(cs[1..], pick)
  {
  }

  /** On success `Days` holds the value of the last `<Days>` child, or keeps
      its starting value when there is none. */
  lemma {:induction false} DecodeLastDaysWins(acc: Transition, cs: seq<Child>, parse: string -> Option<Time>)
    ensures var r := DecodeChildren(acc, cs, parse);
      r.Success? ==> r.value.days == (var v := DaysValues(cs); if |v| == 0 then acc.days else v[|v| - 1])
    decreases |cs|
  {
    if |cs| > 0 {
      match ReadChild(cs[0], parse)
      case Failure(_) =>
      case Success(u) =>
        DecodeLastDaysWins(Apply(acc, u), cs[1..], parse);
        CollectUnfold(cs, PickDays);
    }
  }

  /** On success `Date` holds what the last `<Date>` child's text parses to,
      or keeps its starting value when there is none. */
  lemma {:induction false} DecodeLastDateWins(acc: Transition, cs: seq<Child>, parse: string -> Option<Time>)
    ensures var r := DecodeChildren(acc, cs, parse);
      r.Success? ==>
        var v := DateTexts(cs);
        if |v| == 0 then r.value.date == acc.date else parse(v[|v| - 1]) == Some(r.value.date)
    decreases |cs|
  {
    if |cs| > 0 {
      match ReadChild(cs[0], parse)
      case Failure(_) =>
      case Success(u) =>
        DecodeLastDateWins(Apply(acc, u), cs[1..], parse);
        CollectUnfold(cs, PickDate);
    }
  }

  /** On success `StorageClass` holds the value of the last `<StorageClass>`
      child, or keeps its starting value when there is none. */
  lemma {:induction false} DecodeLastStorageClassWins(acc: Transition, cs: seq<Child>, parse: string -> Option<Time>)
    ensures var r := DecodeChildren(acc, cs, parse);
      r.Success? ==>
        r.value.storageClass == (var v := StorageClassValues(cs); if |v| == 0 then acc.storageClass else v[|v| - 1])
    decreases |cs|
  {
    if |cs| > 0 {
      match ReadChild(cs[0], parse)
      case Failure(_) =>
      case Success(u) =>
        DecodeLastStorageClassWins(Apply(acc, u), cs[1..], parse);
        CollectUnfold(cs, PickStorageClass);
    }
  }

  /** `Transition.UnmarshalXML` in terms of the document: a failure is the
      error of the first child that is not accepted, passed on unchanged; a
      success makes the receiver the freshly decoded struct, whose fields come
      from the last child naming them (or stay zero), with only `set` added. */
  lemma UnmarshalTransitionSpec(receiver: Transition, cs: seq<Child>, parse: string -> Option<Time>)
    ensures var r := UnmarshalTransition(receiver, cs, parse);
      r.err.Some? ==>
        exists k :: 0 <= k < |cs| && ReadChild(cs[k], parse) == Failure(r.err.value) &&
          forall i :: 0 <= i < k ==> ReadChild(cs[i], parse).Success?
    ensures var r := UnmarshalTransition(receiver, cs, parse);
      var days, dates, classes := DaysValues(cs), DateTexts(cs), StorageClassValues(cs);
      r.err.None? ==>
        && r.receiver.days == (if |days| == 0 then 0 else days[|days| - 1])
        && (if |dates| == 0 then r.receiver.date == ZeroTime
            else parse(dates[|dates| - 1]) == Some(r.receiver.date))
        && r.receiver.storageClass == (if |classes| == 0 then "" else classes[|classes| - 1])
        && r.receiver.isSet
  {
    DecodeFailsAtFirstBadChild(Blank, cs, parse);
    DecodeLastDaysWins(Blank, cs, parse);
    DecodeLastDateWins(Blank, cs, parse);
    DecodeLastStorageClassWins(Blank, cs, parse);
  }

  /** Decoding does not look at the receiver: from any two receivers the same
      children give the same error, or the same decoded element. */
  lemma DecodeIgnoresReceiver(t1: Transition, t2: Transition, cs: seq<Child>, parse: string -> Option<Time>)
    ensures UnmarshalTransition(t1, cs, parse).err == UnmarshalTransition(t2, cs, parse).err
    ensures UnmarshalTransition(t1, cs, parse).err.None? ==>
              UnmarshalTransition(t1, cs, parse).receiver == UnmarshalTransition(t2, cs, parse).receiver
  {
  }

  /** Encoding a set element and decoding the result gives the element back,
      whatever the receiver held, provided the time library reads back the
      text it wrote for the date. A zero count, a zero date and an empty class
      travel as omitted children. */
  lemma MarshalUnmarshalRoundTrip(t: Transition, receiver: Transition,
                                  format: Time -> string, parse: string -> Option<Time>)
    requires t.isSet && FieldInvariant(t)
    requires !IsZero(t.date) ==> parse(format(t.date)) == Some(t.date)
    ensures MarshalTransition(t, format).Some?
    ensures UnmarshalTransition(receiver, MarshalTransition(t, format).value, parse) == Unmarshalled(t, None)
  {
    var cs := MarshalTransition(t, format).value;
    assert cs == DaysChild(t) + DateChild(t, format) + StorageClassChild(t);
    forall i | 0 <= i < |cs|
      ensures ReadChild(cs[i], parse).Success?
    {
      if i < |DaysChild(t)| {
        assert cs[i] == DaysElem(Value(t.days));
      } else if i < |DaysChild(t) + DateChild(t, format)| {
        assert cs[i] == DateElem(Value(format(t.date)));
      } else {
        assert cs[i] == StorageClassElem(Value(t.storageClass));
      }
    }
    DecodeSucceedsIff(Blank, cs, parse);
    DecodeLastDaysWins(Blank, cs, parse);
    DecodeLastDateWins(Blank, cs, parse);
    DecodeLastStorageClassWins(Blank, cs, parse);
    MarshalTransitionFields(t, format);
  }

  /** Everything a successful decode produces survives a second trip through
      encoding and decoding unchanged. */
  lemma DecodedElementRoundTrips(receiver: Transition, cs: seq<Child>,
                                 format: Time -> string, parse: string -> Option<Time>)
    requires UnmarshalTransition(receiver, cs, parse).err.None?
    requires var d := UnmarshalTransition(receiver, cs, parse).receiver.date;
             !IsZero(d) ==> parse(format(d)) == Some(d)
    ensures var t := UnmarshalTransition(receiver, cs, parse).receiver;
      UnmarshalTransition(t, MarshalTransition(t, format).value, parse) == Unmarshalled(t, None)
  {
    var t := UnmarshalTransition(receiver, cs, parse).receiver;
    MarshalUnmarshalRoundTrip(t, t, format, parse);
  }

  /** What validation makes of a decoded document: it accepts exactly when
      the last `<Days>` and the last `<Date>` leave one trigger non-null and
      the last `<StorageClass>` is not empty. */
  lemma DecodedValidateIff(receiver: Transition, cs: seq<Child>, parse: string -> Option<Time>)
    requires UnmarshalTransition(receiver, cs, parse).err.None?
    ensures var t := UnmarshalTransition(receiver, cs, parse).receiver;
      var days, dates, classes := DaysValues(cs), DateTexts(cs), StorageClassValues(cs);
      var daysGiven := |days| > 0 && days[|days| - 1] != 0;
      var dateGiven := |dates| > 0 && parse(dates[|dates| - 1]) != Some(ZeroTime);
      var classGiven := |classes| > 0 && classes[|classes| - 1] != "";
      Validate(t).None? <==> daysGiven != dateGiven && classGiven
  {
    DecodeLastDaysWins(Blank, cs, parse);
    DecodeLastDateWins(Blank, cs, parse);
    DecodeLastStorageClassWins(Blank, cs, parse);
  }

  /** The null predicates read only the trigger fields, never `set`. */
  lemma NullPredicatesIgnoreSet(t: Transition, b: bool)
    ensures IsDaysNull(t.(isSet := b)) == IsDaysNull(t)
    ensures IsDateNull(t.(isSet := b)) == IsDateNull(t)
    ensures IsNull(t.(isSet := b)) <==> IsDaysNull(t) && IsDateNull(t)
  {
  }

  /** `<Transition></Transition>` decodes, but fails validation. */
  lemma EmptyElementDecodesButIsMalformed(receiver: Transition, parse: string -> Option<Time>)
    ensures UnmarshalTransition(receiver, [], parse) == Unmarshalled(Blank.(isSet := true), None)
    ensures Validate(Blank.(isSet := true)) == Some(XmlNotWellFormed)
  {
  }

  /** `<Days>-1</Days>` fails decoding and leaves the receiver alone. */
  lemma NegativeDaysRejected(receiver: Transition, parse: string -> Option<Time>)
    ensures UnmarshalTransition(receiver, [DaysElem(Value(-1))], parse)
              == Unmarshalled(receiver, Some(TransitionInvalidDays))
  {
  }

  /** `<Days>5</Days><StorageClass></StorageClass>` decodes, but fails
      validation for the missing class. */
  lemma EmptyStorageClassIsMalformed(receiver: Transition, parse: string -> Option<Time>)
    ensures var r := UnmarshalTransition(receiver, [DaysElem(Value(5)), StorageClassElem(Value(""))], parse);
      r.err.None? && Validate(r.receiver) == Some(XmlNotWellFormed)
  {
    assert [DaysElem(Value(5)), StorageClassElem(Value(""))][1..] == [StorageClassElem(Value(""))];
  }

  /** Both triggers decode together, and validation rejects the pair. */
  lemma BothTriggersConflict(receiver: Transition, days: GoInt, text: string, date: Time, parse: string -> Option<Time>)
    requires days > 0 && parse(text) == Some(date) && IsMidnightUtc(date) && !IsZero(date)
    ensures var r := UnmarshalTransition(receiver, [DaysElem(Value(days)), DateElem(Value(text))], parse);
      r.err.None? && Validate(r.receiver) == Some(TransitionInvalid)
  {
    var cs := [DaysElem(Value(days)), DateElem(Value(text))];
    assert ReadChild(cs[0], parse) == Success(SetDays(days));
    assert ReadChild(cs[1], parse) == Success(SetDate(date));
    var acc1 := Blank.(days := days);
    assert cs[1..][1..] == [];
    assert DecodeChildren(acc1.(date := date), cs[1..][1..], parse) == Success(acc1.(date := date));
    assert DecodeChildren(acc1, cs[1..], parse) == Success(acc1.(date := date));
    assert DecodeChildren(Blank, cs, parse) == Success(acc1.(date := date));
  }
}
