/**
  The validation step that runs before a "set a value" handler: it reads the user's text
  in an FSM state `set:<field>`, checks it against the field's limits and decides what
  is written to the user's record and whether the handler runs.
 */
module SetValue {
  import opened Wrappers
  import opened Json
  import Text
  import Limit

  /** What one message leads to. */
  datatype Decision =
    | Ignored                                   // no text or no FSM context: returns at once
    | PassThrough                               // not a `set` state: handler runs, nothing written
    | NotANumber                                // error reply; no write, no handler
    | OutOfRange(entered: real, range: Limit.Range) // failure reply; no write, no handler
    | Write(field: string, stored: Json)        // field written, then the handler runs

  /** The fields stored as typed, without a numeric check. */
  predicate Credential(field: string) {
    field == "api" || field == "secret"
  }

  /** The range a field is checked against: its `Limit` attribute, matched upper-cased. */
  function FieldRange(field: string): Limit.Range {
    Limit.Attribute(Text.Upper(field))
  }

  /**
    The middleware's decision for message text `text` (None for a message without text)
    and FSM context `state` (None when the dispatcher passes none; `Some(None)` when the
    context holds no state, whose `.lower()` raises AttributeError). A `set` state with
    nothing after the colon raises IndexError.
   */
  function Decide(text: Option<string>, state: Option<Option<string>>): (r: Result<Decision, Exc>)
    ensures text.None? || text == Some("") || state.None? ==> r == Success(Ignored)
    ensures r.Failure? ==> r.error == AttributeError || r.error == IndexError
  {
    if text.None? || text.value == "" || state.None? then Success(Ignored)
    else if state.value.None? then Failure(AttributeError)
    else
      var pieces := Text.Split(Text.Lower(state.value.value), ':');
      if pieces[0] != "set" then Success(PassThrough)
      else if |pieces| < 2 then Failure(IndexError)
      else
        var field := pieces[1];
        var range := FieldRange(field);
        if Credential(field) then Success(Write(field, Str(text.value)))
        else
          match Text.ParseReal(text.value)
          case None => Success(NotANumber)
          case Some(v) =>
            if v > range.hi as real || v < range.lo as real then Success(OutOfRange(v, range))
            else Success(Write(field, Num(v)))
  }

  /** A numeric field is written only with a number inside its inclusive range. */
  lemma DecideWritesInRange(text: Option<string>, state: Option<Option<string>>)
    requires Decide(text, state).Success? && Decide(text, state).value.Write?
    ensures var d := Decide(text, state).value;
      Credential(d.field) || (d.stored.Num? &&
        FieldRange(d.field).lo as real <= d.stored.r <= FieldRange(d.field).hi as real &&
        Text.ParseReal(text.value) == Some(d.stored.r))
  {
  }

  /** Text that parses to a number outside the range is refused with the range in the reply. */
  lemma DecideRefusesOutOfRange(text: string, field: string, v: real)
    requires text != "" && ':' !in field && !Credential(Text.Lower(field))
    requires Text.ParseReal(text) == Some(v)
    requires v < FieldRange(Text.Lower(field)).lo as real || v > FieldRange(Text.Lower(field)).hi as real
    ensures Decide(Some(text), Some(Some("set:" + field))) ==
      Success(OutOfRange(v, FieldRange(Text.Lower(field))))
  {
    SetPieces(field);
  }

  /** The credential fields take the text as it is, whatever it looks like. */
  lemma DecideCredentialUnchecked(text: string, field: string)
    requires text != "" && ':' !in field && Credential(Text.Lower(field))
    ensures Decide(Some(text), Some(Some("set:" + field))) == Success(Write(Text.Lower(field), Str(text)))
  {
    SetPieces(field);
  }

  /** A field without a `Limit` attribute accepts only the number 0. */
  lemma DecideUnknownFieldOnlyZero(text: Option<string>, state: Option<Option<string>>)
    requires Decide(text, state).Success? && Decide(text, state).value.Write?
    requires !Credential(Decide(text, state).value.field)
    requires Text.Upper(Decide(text, state).value.field) !in {"LEVERAGE", "BALANCE", "TAKE_PROFIT", "SIZE"}
    ensures Decide(text, state).value.stored == Num(0.0)
  {
  }

  /** A state outside the `set` group reaches the handler with nothing written. */
  lemma DecidePassesOtherStates(text: string, group: string, rest: string)
    requires text != "" && ':' !in group && Text.Lower(group) != "set"
    ensures Decide(Some(text), Some(Some(group + ":" + rest))) == Success(PassThrough)
  {
    Text.LowerAppend(group + ":", rest);
    Text.LowerAppend(group, ":");
    Text.LowerKeepsOther(group, ':');
    assert Text.Lower(":") == ":";
    Text.SplitHead(Text.Lower(group), Text.Lower(rest), ':');
  }

  /** The pieces of `set:<field>` after lower-casing, for a field without a colon. */
  lemma SetPieces(field: string)
    requires ':' !in field
    ensures Text.Split(Text.Lower("set:" + field), ':') == ["set", Text.Lower(field)]
  {
    Text.LowerAppend("set:", field);
    assert Text.Lower("set:") == "set:";
    Text.LowerKeepsOther(field, ':');
    var parts := ["set", Text.Lower(field)];
    assert Text.Join(parts, ":") == "set:" + Text.Lower(field);
    Text.SplitJoin(parts, ':');
  }
}
