/** A positional command-line parameter: a name, which must be non-empty and upper case,
    and a description. */
module PositionalParameters {
  import opened Wrappers

  const EmptyNameMessage := "Positional parameter name must not be empty."
  const NotUppercaseMessage := "Positional parameter name must be all uppercase."

  datatype PositionalParameterDefinition = PositionalParameterDefinition(name: string, description: string)

  predicate IsLowerCaseLetter(ch: char)
  {
    'a' <= ch <= 'z'
  }

  /** Upper case of one character: ASCII letters only. */
  function UpperChar(ch: char): (r: char)
    ensures !IsLowerCaseLetter(r)
    ensures !IsLowerCaseLetter(ch) ==> r == ch
  {
    if IsLowerCaseLetter(ch) then (ch as int - 32) as char else ch
  }

  /** `toUpperCase` on ASCII text. */
  function ToUpperCase(s: string): (r: string)
    ensures |r| == |s|
    ensures forall i :: 0 <= i < |s| ==> r[i] == UpperChar(s[i])
  {
    seq(|s|, i requires 0 <= i < |s| => UpperChar(s[i]))
  }

  /** A name equals its upper case form exactly when it holds no lower-case letter. */
  lemma UppercaseIffNoLowerCase(s: string)
    ensures s == ToUpperCase(s) <==> forall i :: 0 <= i < |s| ==> !IsLowerCaseLetter(s[i])
  {
    if forall i :: 0 <= i < |s| ==> !IsLowerCaseLetter(s[i]) {
      assert forall i :: 0 <= i < |s| ==> ToUpperCase(s)[i] == s[i];
    }
  }

  /** Upper-casing twice is upper-casing once. */
  lemma ToUpperCaseIdempotent(s: string)
    ensures ToUpperCase(ToUpperCase(s)) == ToUpperCase(s)
  {
    UppercaseIffNoLowerCase(ToUpperCase(s));
  }

  /** The constructor: the empty check first, then the upper-case check; the description
      is not checked, and both fields are kept as given. */
  function NewPositionalParameter(name: string, description: string): (r: Result<PositionalParameterDefinition, string>)
    ensures name == "" ==> r == Failure(EmptyNameMessage)
    ensures name != "" && name != ToUpperCase(name) ==> r == Failure(NotUppercaseMessage)
    ensures name != "" && name == ToUpperCase(name) ==> r == Success(PositionalParameterDefinition(name, description))
    ensures r.Success? ==> r.value == PositionalParameterDefinition(name, description)
  {
    if name == "" then Failure(EmptyNameMessage)
    else if name != ToUpperCase(name) then Failure(NotUppercaseMessage)
    else Success(PositionalParameterDefinition(name, description))
  }

  /** Exactly the non-empty names without lower-case letters are accepted, with any
      description, the empty one included. */
  lemma AcceptedNames(name: string, description: string)
    ensures NewPositionalParameter(name, description).Success?
            <==> name != "" && forall i :: 0 <= i < |name| ==> !IsLowerCaseLetter(name[i])
  {
    UppercaseIffNoLowerCase(name);
  }

  /** Every non-empty upper-cased string is accepted as a name. */
  lemma UpperCasedNamesAccepted(s: string, description: string)
    requires s != ""
    ensures NewPositionalParameter(ToUpperCase(s), description) == Success(PositionalParameterDefinition(ToUpperCase(s), description))
  {
    ToUpperCaseIdempotent(s);
  }

  /** Names without letters, such as digits or punctuation, are accepted; an empty
      description is accepted. */
  lemma AcceptedExamples()
    ensures NewPositionalParameter("FILE", "").Success?
    ensures NewPositionalParameter("123-_", "The thing.").Success?
    ensures NewPositionalParameter("file", "The file.") == Failure(NotUppercaseMessage)
    ensures NewPositionalParameter("", "") == Failure(EmptyNameMessage)
  {
    assert ToUpperCase("FILE") == "FILE";
    assert ToUpperCase("123-_") == "123-_";
    assert ToUpperCase("file")[0] == 'F';
  }
}
