/** App.parseArguments: the command line becomes an ApplicationConfig, or an
    IllegalArgumentException. (App.main, which only times and prints, is not
    part of this model.) */
module App {
  import opened Wrappers
  import opened Exceptions
  import opened Strings
  import opened Config

  const RequiredArgumentsMessage := "Required 2 arguments"

  function UnsupportedAttributeMessage(attributeName: string): string
  {
    "Attribute '" + attributeName + "' is not supported"
  }

  /** At least two arguments, the second one exactly (case included) one of the
      available attribute names; everything after the second is ignored. */
  function ParseArguments(args: seq<string>): (r: Result<ApplicationConfig, Error>)
    ensures |args| < 2 ==> r == Failure(IllegalArgument(RequiredArgumentsMessage))
    ensures |args| >= 2 && args[1] !in AvailableAttributeNames() ==>
      r == Failure(IllegalArgument(UnsupportedAttributeMessage(args[1])))
    ensures r.Success? <==> |args| >= 2 && args[1] in AvailableAttributeNames()
    ensures r.Success? ==> r.value.inputDirectory == args[0] && r.value.attributeName == args[1]
  {
    if |args| < 2 then
      Failure(IllegalArgument(RequiredArgumentsMessage))
    else if args[1] !in AvailableAttributeNames() then
      Failure(IllegalArgument(UnsupportedAttributeMessage(args[1])))
    else
      Success(ApplicationConfig(args[0], args[1]))
  }

  /** Arguments after the second change nothing. */
  lemma ExtraArgumentsIgnored(args: seq<string>, extra: seq<string>)
    requires |args| == 2
    ensures ParseArguments(args + extra) == ParseArguments(args)
  {
    assert (args + extra)[1] == args[1] && (args + extra)[0] == args[0];
  }

  /** The comparison is case-sensitive: an attribute name with an upper-case
      letter is refused, even when it lower-cases to an available one. */
  lemma AttributeNameIsCaseSensitive(directory: string, attributeName: string)
    requires exists i :: 0 <= i < |attributeName| && 'A' <= attributeName[i] <= 'Z'
    ensures ParseArguments([directory, attributeName]).Failure?
  {
    var i :| 0 <= i < |attributeName| && 'A' <= attributeName[i] <= 'Z';
    LowerChangesUpper(attributeName, i);
  }

  /** A configuration that parsing accepts names an attribute that is its own
      lower-case form, so the processor's case-insensitive switch selects exactly it. */
  lemma ParsedAttributeIsLowerCase(args: seq<string>)
    requires ParseArguments(args).Success?
    ensures Lower(ParseArguments(args).value.attributeName) == ParseArguments(args).value.attributeName
  {
  }
}
