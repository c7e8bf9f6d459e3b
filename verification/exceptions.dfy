/** The error values of the schema model: the two exception classes of the
    package (`InvalidSchemaConstraintException`, `UnsupportedTypeException`)
    and the two PHP built-in exceptions the core throws directly. */
module Exceptions {
  import opened Base
  import opened Json

  // ---------------------------------------------------------------------
  // InvalidSchemaConstraintException

  const ConstraintPrefix: string := "Invalid schema constraint \""
  const ConstraintSeparator: string := "\": "

  /** A constraint violation found by a validating constructor: the name of the
      violated constraint, the exception message and the context values. */
  datatype InvalidSchemaConstraint = InvalidSchemaConstraint(constraint: string, message: string, context: Fields)

  /** `sprintf('Invalid schema constraint "%s": %s', $constraint, $reason)`. */
  function ConstraintMessage(constraint: string, reason: string): string {
    ConstraintPrefix + constraint + ConstraintSeparator + reason
  }

  /** The exception's constructor; `context` defaults to the empty array. */
  function NewInvalidSchemaConstraint(constraint: string, reason: string, context: Fields := []): (e: InvalidSchemaConstraint)
    ensures e.constraint == constraint
    ensures e.context == context
    ensures |e.message| >= |ConstraintPrefix| && e.message[..|ConstraintPrefix|] == ConstraintPrefix
    ensures '"' !in constraint ==> ParseConstraintMessage(e.message) == Some((constraint, reason))
  {
    ConstraintMessageRoundTrip(constraint, reason);
    InvalidSchemaConstraint(constraint, ConstraintMessage(constraint, reason), context)
  }

  /** The first position of `c` in `s`. */
  function IndexOf(s: string, c: char): Option<nat> {
    if s == [] then None
    else if s[0] == c then Some(0)
    else match IndexOf(s[1..], c)
      case None => None
      case Some(i) => Some(i + 1)
  }

  lemma {:induction false} IndexOfFirst(a: string, c: char, rest: string)
    requires c !in a
    ensures IndexOf(a + [c] + rest, c) == Some(|a|)
  {
    if a != [] {
      assert (a + [c] + rest)[1..] == a[1..] + [c] + rest;
      IndexOfFirst(a[1..], c, rest);
    }
  }

  lemma {:induction false} IndexOfFound(s: string, c: char)
    ensures IndexOf(s, c).Some? ==>
              IndexOf(s, c).value < |s| && s[IndexOf(s, c).value] == c && c !in s[..IndexOf(s, c).value]
  {
    if s != [] && s[0] != c {
      IndexOfFound(s[1..], c);
      if IndexOf(s, c).Some? {
        var i := IndexOf(s, c).value;
        assert s[..i] == [s[0]] + s[1..][..i - 1];
      }
    }
  }

  /** Reads a constraint message back into the constraint name and the reason:
      the name runs from the opening quote to the next quote. */
  function ParseConstraintMessage(message: string): Option<(string, string)> {
    if |message| < |ConstraintPrefix| || message[..|ConstraintPrefix|] != ConstraintPrefix then None
    else
      var body := message[|ConstraintPrefix|..];
      match IndexOf(body, '"')
      case None => None
      case Some(q) =>
        if q + |ConstraintSeparator| <= |body| && body[q..q + |ConstraintSeparator|] == ConstraintSeparator
        then Some((body[..q], body[q + |ConstraintSeparator|..]))
        else None
  }

  /** The message carries the constraint name verbatim between the quotes, then
      the reason: a name without a quote character can be read back exactly. */
  lemma ConstraintMessageRoundTrip(constraint: string, reason: string)
    ensures '"' !in constraint ==>
      ParseConstraintMessage(ConstraintMessage(constraint, reason)) == Some((constraint, reason))
  {
    if '"' in constraint {
      return;
    }
    var m := ConstraintMessage(constraint, reason);
    assert m[..|ConstraintPrefix|] == ConstraintPrefix;
    var body := m[|ConstraintPrefix|..];
    assert body == constraint + ['"'] + (": " + reason);
    IndexOfFirst(constraint, '"', ": " + reason);
    assert body[|constraint|..|constraint| + 3] == ConstraintSeparator;
    assert body[..|constraint|] == constraint;
    assert body[|constraint| + 3..] == reason;
  }

  /** Conversely, every message that parses is the message built from what it parses to. */
  lemma ParsedConstraintMessage(message: string)
    requires ParseConstraintMessage(message).Some?
    ensures var (c, r) := ParseConstraintMessage(message).value;
      '"' !in c && message == ConstraintMessage(c, r)
  {
    var body := message[|ConstraintPrefix|..];
    IndexOfFound(body, '"');
    var q := IndexOf(body, '"').value;
    assert body == body[..q] + body[q..q + 3] + body[q + 3..];
    assert message == message[..|ConstraintPrefix|] + body;
  }

  // ---------------------------------------------------------------------
  // UnsupportedTypeException

  const UnsupportedPrefix: string := "Type \""
  const UnsupportedSuffix: string := "\" is not supported yet."

  /** A type no mapper handles. `previous` is the message of the chained
      throwable, if one was given. */
  datatype UnsupportedType = UnsupportedType(message: string, code: int, previous: Option<string>)

  /** `sprintf('Type "%s" is not supported yet.', $typeName)`. */
  function UnsupportedMessage(typeName: string): string {
    UnsupportedPrefix + typeName + UnsupportedSuffix
  }

  /** The exception's constructor; `code` defaults to 0 and `previous` to none. */
  function NewUnsupportedType(typeName: string, code: int := 0, previous: Option<string> := None): (e: UnsupportedType)
    ensures e.code == code && e.previous == previous
    ensures UnsupportedTypeName(e.message) == Some(typeName)
  {
    UnsupportedType(UnsupportedMessage(typeName), code, previous)
  }

  /** The type name between the fixed prefix and the fixed suffix. */
  function UnsupportedTypeName(message: string): Option<string> {
    if |message| >= |UnsupportedPrefix| + |UnsupportedSuffix|
       && message[..|UnsupportedPrefix|] == UnsupportedPrefix
       && message[|message| - |UnsupportedSuffix|..] == UnsupportedSuffix
    then Some(message[|UnsupportedPrefix|..|message| - |UnsupportedSuffix|])
    else None
  }

  /** Every message that yields a type name is the message for that name, so
      the message and the name determine each other. */
  lemma UnsupportedMessageInverse(message: string)
    requires UnsupportedTypeName(message).Some?
    ensures message == UnsupportedMessage(UnsupportedTypeName(message).value)
  {
    var n := UnsupportedTypeName(message).value;
    assert message == message[..|UnsupportedPrefix|] + n + message[|message| - |UnsupportedSuffix|..];
  }

  // ---------------------------------------------------------------------
  // Everything a call in the core can throw

  datatype Exception =
    | Unsupported(unsupported: UnsupportedType)
    | Constraint(violation: InvalidSchemaConstraint)
      /** PHP `InvalidArgumentException` with its message. */
    | InvalidArgument(message: string)
      /** PHP `LogicException` with its message. */
    | Logic(message: string)
}
