/** ApplicationConfig: the input directory and selected attribute, the closed
    set of attribute names and the naming of the statistic files. */
module Config {
  import opened Strings

  /** The record ApplicationConfig; the input directory is held as its path. */
  datatype ApplicationConfig = ApplicationConfig(inputDirectory: string, attributeName: string)

  const BurgerName := "burger-name"
  const IngredientName := "ingredient-name"
  const IngredientPrice := "ingredient-price"

  /** Directory the report is written to. */
  const StatisticDirectoryName := "statistic"

  const StatisticFilePrefix := "statistic_by_"
  const StatisticFileSuffix := ".xml"

  /** The attributes one can count by: three distinct names, already in lower case. */
  function AvailableAttributeNames(): (names: seq<string>)
    ensures |names| == 3
    ensures names[0] == BurgerName && names[1] == IngredientName && names[2] == IngredientPrice
    ensures forall i, j :: 0 <= i < j < |names| ==> names[i] != names[j]
    ensures forall n :: n in names ==> Lower(n) == n && !IsBlank(n)
  {
    var names := [BurgerName, IngredientName, IngredientPrice];
    assert !IsWhitespace(BurgerName[0]) && !IsWhitespace(IngredientName[0]) && !IsWhitespace(IngredientPrice[0]);
    names
  }

  /** getStatisticFileNameFor: the prefix, the attribute name and the suffix, so
      the attribute can be read back from the middle of the file name. */
  function GetStatisticFileNameFor(attributeName: string): (fileName: string)
    ensures |fileName| == |StatisticFilePrefix| + |attributeName| + |StatisticFileSuffix|
    ensures fileName[..|StatisticFilePrefix|] == StatisticFilePrefix
    ensures EndsWith(fileName, StatisticFileSuffix)
    ensures fileName[|StatisticFilePrefix|..|fileName| - |StatisticFileSuffix|] == attributeName
  {
    var fileName := StatisticFilePrefix + attributeName + StatisticFileSuffix;
    assert fileName[|StatisticFilePrefix|..|fileName| - |StatisticFileSuffix|] == attributeName;
    fileName
  }

  /** The attribute name a statistic file name was made for, if it is one. */
  function AttributeOfStatisticFile(fileName: string): (attributeName: string)
    requires |StatisticFilePrefix| + |StatisticFileSuffix| <= |fileName|
  {
    fileName[|StatisticFilePrefix|..|fileName| - |StatisticFileSuffix|]
  }

  /** Round trip: the file name gives back the attribute it was made for. */
  lemma StatisticFileNameRoundTrip(attributeName: string)
    ensures AttributeOfStatisticFile(GetStatisticFileNameFor(attributeName)) == attributeName
  {
  }

  /** Distinct attributes get distinct file names. */
  lemma StatisticFileNameInjective(a: string, b: string)
    requires GetStatisticFileNameFor(a) == GetStatisticFileNameFor(b)
    ensures a == b
  {
    StatisticFileNameRoundTrip(a);
    StatisticFileNameRoundTrip(b);
  }
}
