/**
 * The identifier normaliser shared by both scripts: a free-text label becomes
 * a custom-field API name ending in `__c`, and an API name becomes a label.
 */
module Normalizer {
  import opened PyStrings

  /** The suffix that marks a custom field's API name. */
  const Suffix := "__c"

  /** The `(label, dev_name)` pair `process_label_input` returns. */
  datatype Names = Names(labelText: string, devName: string)

  /**
   * `generate_developer_name_from_label`: the whitespace-separated words,
   * each stripped, joined by `_`, then the suffix.
   */
  function DevNameFromLabel(labelText: string): (r: string)
    ensures r == Join("_", SplitWs(labelText)) + Suffix
  {
    var words := SplitWs(labelText);
    StripWords(words);
    Join("_", StripEach(words)) + Suffix
  }

  /** The API name built from a label ends with the suffix and holds no whitespace. */
  lemma DevNameShape(labelText: string)
    ensures EndsWith(DevNameFromLabel(labelText), Suffix)
    ensures NoSpace(DevNameFromLabel(labelText))
  {
    var words := SplitWs(labelText);
    UnderscoreJoinNoSpace(words);
    SuffixedShape(Join("_", words));
  }

  lemma UnderscoreJoinNoSpace(words: seq<string>)
    requires IsWordList(words)
    ensures NoSpace(Join("_", words))
  {
    assert NoSpace("_");
    JoinNoSpace("_", words);
  }

  lemma SuffixedShape(j: string)
    requires NoSpace(j)
    ensures EndsWith(j + Suffix, Suffix) && NoSpace(j + Suffix)
  {
    EndsWithConcat(j, Suffix);
    NoSpaceConcat(j, Suffix);
  }

  /** `[w.strip() for w in words]`. */
  function StripEach(words: seq<string>): seq<string>
  {
    seq(|words|, i requires 0 <= i < |words| => Strip(words[i]))
  }

  /** Words that `split()` produced have nothing to strip. */
  lemma StripWords(words: seq<string>)
    requires IsWordList(words)
    ensures StripEach(words) == words
  {
    forall i | 0 <= i < |words| ensures Strip(words[i]) == words[i] {
      assert words[i] != [] && NoSpace(words[i]);
    }
  }

  /**
   * `generate_label_from_developer_name`: one trailing suffix (if any) is
   * removed and every `_` becomes a space.
   */
  function LabelFromDevName(devName: string): (r: string)
    ensures r == Replace(if EndsWith(devName, Suffix) then devName[..|devName| - |Suffix|] else devName, '_', ' ')
    ensures '_' !in r
  {
    var base := if EndsWith(devName, Suffix) then devName[..|devName| - |Suffix|] else devName;
    JoinSplitOn(base, '_', ' ');
    Join(" ", SplitOn(base, '_'))
  }

  /**
   * `process_label_input`: input with a space is a label; anything else is
   * an API name, which gets the suffix unless it already ends with it.
   */
  function ProcessLabelInput(input: string): (r: Names)
    ensures EndsWith(r.devName, Suffix)
    ensures ' ' !in r.devName
    ensures ' ' in input ==> r.labelText == input && r.devName == DevNameFromLabel(input)
    ensures ' ' !in input && EndsWith(input, Suffix) ==> r.devName == input
    ensures ' ' !in input && !EndsWith(input, Suffix) ==> r.devName == input + Suffix
    ensures ' ' !in input ==> r.labelText == LabelFromDevName(r.devName)
  {
    if ' ' in input then
      var d := DevNameFromLabel(input);
      DevNameShape(input);
      Names(input, d)
    else
      var d := if EndsWith(input, Suffix) then input else input + Suffix;
      assert EndsWith(d, Suffix) by {
        if !EndsWith(input, Suffix) { assert d[|d| - |Suffix|..] == Suffix; }
      }
      Names(LabelFromDevName(d), d)
  }

  /**
   * Feeding the API name back in keeps it as it is and recovers the label
   * from it: the suffix is never doubled.
   */
  lemma ProcessIdempotent(input: string)
    ensures ProcessLabelInput(ProcessLabelInput(input).devName)
      == Names(LabelFromDevName(ProcessLabelInput(input).devName), ProcessLabelInput(input).devName)
  {
  }

  /**
   * A label made of nonempty words without whitespace or `_`, joined by
   * single spaces, survives the trip to an API name and back, whichever of
   * the two is entered.
   */
  lemma RoundTrip(words: seq<string>)
    requires IsWordList(words)
    requires forall k | 0 <= k < |words| :: '_' !in words[k]
    ensures var labelText := Join(" ", words);
      var d := DevNameFromLabel(labelText);
      LabelFromDevName(d) == labelText
      && ProcessLabelInput(labelText) == Names(labelText, d)
      && ProcessLabelInput(d) == Names(labelText, d)
  {
    var labelText := Join(" ", words);
    LabelBack(words);
    DevNameShape(labelText);
    if |words| >= 2 {
      SpaceBetweenWords(words);
    } else {
      SingleWord(words);
    }
  }

  /** The label comes back from the API name built from it. */
  lemma LabelBack(words: seq<string>)
    requires IsWordList(words)
    requires forall k | 0 <= k < |words| :: '_' !in words[k]
    ensures var labelText := Join(" ", words);
      var d := DevNameFromLabel(labelText);
      d == Join("_", words) + Suffix && LabelFromDevName(d) == labelText
  {
    var labelText := Join(" ", words);
    SplitWsJoin(words);
    var base := Join("_", words);
    var d := DevNameFromLabel(labelText);
    assert d == base + Suffix;
    assert EndsWith(d, Suffix) && d[..|d| - |Suffix|] == base;
    ReplaceJoin(words, '_', ' ');
  }

  lemma SpaceBetweenWords(words: seq<string>)
    requires |words| >= 2
    ensures ' ' in Join(" ", words)
  {
    var labelText := Join(" ", words);
    assert labelText == words[0] + " " + Join(" ", words[1..]);
    assert labelText[|words[0]|] == ' ';
  }

  /** A label of at most one word is entered as an API name: it gets the suffix. */
  lemma SingleWord(words: seq<string>)
    requires IsWordList(words) && |words| < 2
    requires forall k | 0 <= k < |words| :: '_' !in words[k]
    ensures var labelText := Join(" ", words);
      ' ' !in labelText && !EndsWith(labelText, Suffix) && DevNameFromLabel(labelText) == labelText + Suffix
  {
    var labelText := Join(" ", words);
    if words != [] {
      assert words[0] == labelText;
      assert NoSpace(labelText);
    }
    SplitWsJoin(words);
    SuffixedHasUnderscore(labelText);
  }

  lemma SuffixedHasUnderscore(s: string)
    ensures EndsWith(s, Suffix) ==> '_' in s
  {
    if EndsWith(s, Suffix) {
      assert s[|s| - 3] == s[|s| - 3..][0];
    }
  }
}
