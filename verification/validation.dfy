/** The data layer's validation errors, shared by the user, match and rating
    schemas: each failed validator contributes a path and a message built
    from the schema type's message template, and the error's message names
    the model and lists the failures in schema order. */
module Validation {
  import Text

  /** One failed validator: the document path and its message. */
  datatype Issue = Issue(path: string, message: string)

  function IssueText(i: Issue): string {
    i.path + ": " + i.message
  }

  /** The message of a `ValidationError` of model `model`. */
  function ValidationMessage(model: string, issues: seq<Issue>): (r: string)
    ensures |model + " validation failed: "| <= |r|
    ensures r[..|model + " validation failed: "|] == model + " validation failed: "
  {
    var prefix := model + " validation failed: ";
    var r := prefix + Text.Join(seq(|issues|, k requires 0 <= k < |issues| => IssueText(issues[k])), ", ");
    assert r[..|prefix|] == prefix;
    r
  }

  /** The message of a single failed `required` validator. */
  lemma OneRequiredMessage(model: string, path: string)
    ensures ValidationMessage(model, [Issue(path, RequiredMessage(path))])
            == model + " validation failed: " + path + ": Path `" + path + "` is required."
  {
    var issues := [Issue(path, RequiredMessage(path))];
    var texts := seq(|issues|, k requires 0 <= k < |issues| => IssueText(issues[k]));
    assert texts == [IssueText(issues[0])];
  }

  /** The `required` message. */
  function RequiredMessage(path: string): string {
    "Path `" + path + "` is required."
  }

  /** The `enum` message. */
  function EnumMessage(value: string, path: string): string {
    "`" + value + "` is not a valid enum value for path `" + path + "`."
  }

  /** The `min` message of a number. */
  function MinMessage(path: string, value: int, min: int): string {
    "Path `" + path + "` (" + Text.IntToString(value) + ") is less than minimum allowed value ("
    + Text.IntToString(min) + ")."
  }

  /** The `max` message of a number. */
  function MaxMessage(path: string, value: int, max: int): string {
    "Path `" + path + "` (" + Text.IntToString(value) + ") is more than maximum allowed value ("
    + Text.IntToString(max) + ")."
  }

  /** The `maxlength` message of a string, with its length in UTF-16 code
      units. */
  function MaxLengthMessage(path: string, value: string, max: int): string {
    "Path `" + path + "` (`" + value + "`, length " + Text.NatToString(Text.Utf16Length(value))
    + ") is longer than the maximum allowed length (" + Text.IntToString(max) + ")."
  }

  /** The message of a value the `Date` type cannot cast, such as an invalid
      date. */
  function DateCastMessage(path: string): string {
    "Cast to date failed for value \"Invalid Date\" (type Date) at path \"" + path + "\""
  }
}

/** Concrete message texts, kept apart from the templates so that the
    literal concatenations are checked in a small context. */
module MessageText {
  /** The text of a match whose creator is missing. */
  lemma CreatorMessageText()
    ensures "Match" + " validation failed: " + "createdBy" + ": Path `" + "createdBy" + "` is required."
            == "Match validation failed: createdBy: Path `createdBy` is required."
  {
    var a := "Match" + " validation failed: ";
    assert a == "Match validation failed: ";
    var b := a + "createdBy";
    assert b == "Match validation failed: createdBy";
    var c := b + ": Path `";
    assert c == "Match validation failed: createdBy: Path `";
    var e := c + "createdBy";
    assert e == "Match validation failed: createdBy: Path `createdBy";
    var f := e + "` is required.";
    assert f == "Match validation failed: createdBy: Path `createdBy` is required.";
  }
}
