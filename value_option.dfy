/** A command-line option that takes a value: the checks every option definition makes of
    its name, description and short name, and the value state that parsing resets and sets. */
module ValueOptions {
  import opened Wrappers

  const EmptyNameMessage := "Option name must not be empty."
  const DashNameMessage := "Option name must not start with a dash."
  const ShortNameMessage := "Option name must be at least two characters long."
  const EmptyDescriptionMessage := "Option description must not be empty."
  const ShortNameNotAlphanumericMessage := "Option short name must be alphanumeric."

  /** ASCII letters and digits. */
  predicate IsAlphanumeric(ch: char)
  {
    ('a' <= ch <= 'z') || ('A' <= ch <= 'Z') || ('0' <= ch <= '9')
  }

  /** The checks an option definition makes on construction, in order; the first that
      fails gives the error message. */
  function ValidateOptionDefinition(name: string, description: string, shortName: Option<char>): (r: Result<(), string>)
    ensures r.Success? <==>
              && name != ""
              && name[0] != '-'
              && |name| >= 2
              && description != ""
              && (shortName.Some? ==> IsAlphanumeric(shortName.value))
    ensures name == "" ==> r == Failure(EmptyNameMessage)
    ensures name != "" && description == "" && name[0] != '-' && |name| >= 2 ==> r == Failure(EmptyDescriptionMessage)
  {
    if name == "" then Failure(EmptyNameMessage)
    else if name[0] == '-' then Failure(DashNameMessage)
    else if |name| < 2 then Failure(ShortNameMessage)
    else if description == "" then Failure(EmptyDescriptionMessage)
    else if shortName.Some? && !IsAlphanumeric(shortName.value) then Failure(ShortNameNotAlphanumericMessage)
    else Success(())
  }

  /** The definitions the option tests create, and what each of them gives. */
  lemma OptionDefinitionExamples()
    ensures ValidateOptionDefinition("value", "The value.", None).Success?
    ensures ValidateOptionDefinition("value", "The value.", Some('v')).Success?
    ensures ValidateOptionDefinition("some-value", "The value.", None).Success?
    ensures ValidateOptionDefinition("", "The value.", None) == Failure(EmptyNameMessage)
    ensures ValidateOptionDefinition("value", "", None) == Failure(EmptyDescriptionMessage)
    ensures ValidateOptionDefinition("-value", "The value.", None) == Failure(DashNameMessage)
    ensures ValidateOptionDefinition("v", "The value.", None) == Failure(ShortNameMessage)
    ensures ValidateOptionDefinition("value", "The value.", Some('-')) == Failure(ShortNameNotAlphanumericMessage)
    ensures ValidateOptionDefinition("value", "The value.", Some(' ')) == Failure(ShortNameNotAlphanumericMessage)
  {
  }

  /** The parsing state of a value option. */
  datatype OptionState = OptionState(value: Option<string>, valueHasBeenSet: bool)

  const InitialState := OptionState(None, false)

  /** A state the option can be in: a value is held exactly when one has been set. */
  predicate Consistent(s: OptionState)
  {
    s.valueHasBeenSet <==> s.value.Some?
  }

  /** What parsing does to an option: reset it, or give it a value from the command line. */
  datatype OptionEvent = Reset | ApplyValue(newValue: string)

  /** The state after one event. */
  function Step(s: OptionState, e: OptionEvent): (r: OptionState)
    ensures Consistent(r)
  {
    match e
    case Reset => OptionState(None, false)
    case ApplyValue(v) => OptionState(Some(v), true)
  }

  /** The state after a run of events, in order. */
  function Replay(s: OptionState, events: seq<OptionEvent>): (r: OptionState)
    decreases events
  {
    if events == [] then s else Replay(Step(s, events[0]), events[1..])
  }

  /** After any non-empty run of events only the last one matters: the last value applied
      wins, and a final reset clears whatever came before. */
  lemma {:induction false} LastEventWins(s: OptionState, events: seq<OptionEvent>)
    requires events != []
    ensures Replay(s, events) == Step(InitialState, events[|events| - 1])
    ensures events[|events| - 1].ApplyValue? ==>
              Replay(s, events) == OptionState(Some(events[|events| - 1].newValue), true)
    ensures events[|events| - 1].Reset? ==> Replay(s, events) == InitialState
    decreases events
  {
    if |events| > 1 {
      LastEventWins(Step(s, events[0]), events[1..]);
    }
  }

  /** Every run of events keeps the option consistent. */
  lemma {:induction false} ReplayKeepsConsistent(s: OptionState, events: seq<OptionEvent>)
    requires Consistent(s)
    ensures Consistent(Replay(s, events))
    decreases events
  {
    if events != [] {
      ReplayKeepsConsistent(Step(s, events[0]), events[1..]);
    }
  }

  /** Resetting twice is resetting once. */
  lemma ResetIdempotent(s: OptionState)
    ensures Step(Step(s, Reset), Reset) == Step(s, Reset)
  {
  }

  /** The options a parser knows about, in the order they were registered. */
  class OptionParser {
    var options: seq<ValueOption>

    constructor ()
      ensures options == []
    {
      options := [];
    }

    method AddOption(option: ValueOption)
      modifies this
      ensures options == old(options) + [option]
    {
      options := options + [option];
    }
  }

  class ValueOption {
    const name: string
    const description: string
    const shortName: Option<char>
    var value: Option<string>
    var valueHasBeenSet: bool

    /** Definitions that pass the checks can be constructed; `Create` is the constructor
        as callers see it, failing where the checks fail. */
    constructor (name: string, description: string, shortName: Option<char>)
      requires ValidateOptionDefinition(name, description, shortName).Success?
      ensures this.name == name && this.description == description && this.shortName == shortName
      ensures State() == InitialState && Valid()
    {
      this.name := name;
      this.description := description;
      this.shortName := shortName;
      value := None;
      valueHasBeenSet := false;
    }

    static method Create(name: string, description: string, shortName: Option<char>) returns (r: Result<ValueOption, string>)
      ensures r.Failure? <==> ValidateOptionDefinition(name, description, shortName).Failure?
      ensures r.Failure? ==> r.error == ValidateOptionDefinition(name, description, shortName).error
      ensures r.Success? ==> fresh(r.value) && r.value.State() == InitialState && r.value.Valid()
      ensures r.Success? ==> r.value.name == name && r.value.description == description && r.value.shortName == shortName
    {
      var check := ValidateOptionDefinition(name, description, shortName);
      if check.Failure? {
        return Failure(check.error);
      }
      var option := new ValueOption(name, description, shortName);
      return Success(option);
    }

    function State(): (r: OptionState)
      reads this
    {
      OptionState(value, valueHasBeenSet)
    }

    /** The object invariant: a value is held exactly when one has been set. */
    ghost predicate Valid()
      reads this
    {
      Consistent(State())
    }

    method Reset()
      modifies this
      ensures State() == Step(old(State()), OptionEvent.Reset) && Valid()
    {
      valueHasBeenSet := false;
      value := None;
    }

    method ApplyValue(newValue: string)
      modifies this
      ensures State() == Step(old(State()), OptionEvent.ApplyValue(newValue)) && Valid()
    {
      valueHasBeenSet := true;
      value := Some(newValue);
    }

    /** `provideDelegate`: registers this option with the parser and hands it back. */
    method ProvideDelegate(parser: OptionParser) returns (r: ValueOption)
      modifies parser
      ensures r == this
      ensures parser.options == old(parser.options) + [this]
      ensures State() == old(State())
    {
      parser.AddOption(this);
      return this;
    }

    method GetValue() returns (r: Option<string>)
      requires Valid()
      ensures r == value
      ensures r.Some? <==> valueHasBeenSet
    {
      return value;
    }
  }
}
