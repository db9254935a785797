/**
 * The OCR dataset tools.  A recognition dataset is a folder of images and a
 * labels.txt with one "<file name> <label>" line per image.  This module
 * models how the tools read such a line, the conversion of a
 * TextRecognitionDataGenerator folder to the PaddleOCR layout (a shuffled
 * train/val split with renamed images and rec_gt files), the merge of
 * several datasets into one whose images are numbered 0.jpg, 1.jpg, ..,
 * the character set of a dataset, the dictionary file, and the analysis
 * that compares the two.
 *
 * File contents are passed in as text, None for a file that is missing or
 * cannot be read; whether an image exists, and whether processing an image
 * throws, are predicates passed in; the shuffle is a permutation passed in.
 * Copies and scaled images are recorded as a plan of (source, target)
 * pairs.
 */
module OcrDatasetTools {
  import opened Text
  import opened Collections
  import opened Paths
  import OcrAnnotation

  // ---------------------------------------------------------------------
  // Label lines
  // ---------------------------------------------------------------------

  /** A labels.txt line as the tools read it: a line that is not blank and
      whose trimmed form holds a space gives the text before the first space
      and the rest after it; any other line gives nothing. */
  function ParseLabelLine(line: string): (r: Option<(string, string)>)
    ensures r.Some? <==> !IsBlank(line) && ' ' in Trim(line)
    ensures r.Some? ==> Trim(line) == r.value.0 + " " + r.value.1 && ' ' !in r.value.0
  {
    if IsBlank(line) then None
    else
      var parts := SplitFirst(Trim(line), ' ');
      if |parts| == 2 then Some((parts[0], parts[1])) else None
  }

  /** A file name of an accepted line is never empty: trimming leaves a
      first character that is not white space. */
  lemma ParsedNameNotEmpty(line: string)
    requires ParseLabelLine(line).Some?
    ensures ParseLabelLine(line).value.0 != ""
  {
    TrimShape(line);
  }

  /** "<file name> <label>" reads back as that pair when the file name has
      no white space and the label is not empty and does not end in white
      space. */
  lemma LabelLineRoundTrip(name: string, text: string)
    requires name != [] && forall i :: 0 <= i < |name| ==> !IsWhiteSpace(name[i])
    requires text != [] && !IsWhiteSpace(text[|text| - 1])
    ensures ParseLabelLine(name + " " + text) == Some((name, text))
  {
    var line := name + " " + text;
    assert line[0] == name[0] && line[|line| - 1] == text[|text| - 1];
    TrimNonWhiteEnds(line);
    assert ' ' !in name by {
      forall i | 0 <= i < |name| ensures name[i] != ' ' {
        assert !IsWhiteSpace(name[i]);
      }
    }
    SplitFirstOfJoin(name, ' ', text);
  }

  /** labelsDict[parts[0]] = parts[1] over the lines: the dictionary of the
      accepted lines, a later line for a file name replacing an earlier one. */
  function LabelsDict(lines: seq<string>): map<string, string>
  {
    Collect(Map(lines, ParseLabelLine))
  }

  /** The last accepted line naming a file gives its label. */
  lemma LabelsDictLastWins(lines: seq<string>, k: nat)
    requires k < |lines| && ParseLabelLine(lines[k]).Some?
    requires forall j :: k < j < |lines| && ParseLabelLine(lines[j]).Some? ==>
      ParseLabelLine(lines[j]).value.0 != ParseLabelLine(lines[k]).value.0
    ensures ParseLabelLine(lines[k]).value.0 in LabelsDict(lines)
    ensures LabelsDict(lines)[ParseLabelLine(lines[k]).value.0] == ParseLabelLine(lines[k]).value.1
  {
    CollectLastWins(Map(lines, ParseLabelLine), k);
  }

  /** A file name has a label exactly when some accepted line names it. */
  lemma LabelsDictKeys(lines: seq<string>, name: string)
    ensures name in LabelsDict(lines) <==>
      exists k :: 0 <= k < |lines| && ParseLabelLine(lines[k]).Some? && ParseLabelLine(lines[k]).value.0 == name
  {
    var es := Map(lines, ParseLabelLine);
    CollectKeys(es, name);
    if name in LabelsDict(lines) {
      var k :| 0 <= k < |es| && es[k].Some? && es[k].value.0 == name;
      assert ParseLabelLine(lines[k]) == es[k];
    }
  }

  /** foreach (var ch in s) set.Add(ch). */
  method AddChars(chars: set<char>, s: string) returns (r: set<char>)
    ensures r == chars + set c | c in s
  {
    r := chars;
    for i := 0 to |s|
      invariant r == chars + set c | c in s[..i]
    {
      TakeNext(s, i);
      r := r + {s[i]};
    }
    assert s[..|s|] == s;
  }

  // ---------------------------------------------------------------------
  // The character set
  // ---------------------------------------------------------------------

  /** The characters of the label of one line, none for a line that is not
      accepted. */
  function LineLabelChars(line: string): set<char>
  {
    match ParseLabelLine(line)
    case Some(e) => set c | c in e.1
    case None => {}
  }

  /** The characters of all accepted labels. */
  function LabelChars(lines: seq<string>): set<char>
  {
    UnionOf(lines, LineLabelChars)
  }

  /** A character is in the character set exactly when some accepted label
      holds it. */
  lemma LabelCharsMeans(lines: seq<string>, c: char)
    ensures c in LabelChars(lines) <==>
      exists k :: 0 <= k < |lines| && ParseLabelLine(lines[k]).Some? && c in ParseLabelLine(lines[k]).value.1
  {
    UnionOfMeans(lines, LineLabelChars, c);
  }

  /** One character per line. */
  function CharLine(c: char): string
  {
    [c]
  }

  /** The dictionary file: the characters in ascending order, one per line. */
  function CharLines(chars: set<char>): seq<string>
  {
    Map(SortedChars(chars), CharLine)
  }

  /** The dictionary file lists every character of the set exactly once, in
      ascending order. */
  lemma CharLinesListChars(chars: set<char>)
    ensures |CharLines(chars)| == |chars|
    ensures forall i :: 0 <= i < |CharLines(chars)| ==> |CharLines(chars)[i]| == 1 && CharLines(chars)[i][0] in chars
    ensures forall c :: c in chars ==> exists i :: 0 <= i < |CharLines(chars)| && CharLines(chars)[i] == [c]
    ensures forall i, j :: 0 <= i < j < |CharLines(chars)| ==> CharLines(chars)[i][0] < CharLines(chars)[j][0]
  {
    var s := SortedChars(chars);
    assert NoDuplicates(s);
    NoDuplicatesCard(s);
    assert (set x | x in s) == chars;
    forall c | c in chars ensures exists i :: 0 <= i < |s| && CharLines(chars)[i] == [c] {
      var i :| 0 <= i < |s| && s[i] == c;
      assert CharLines(chars)[i] == [c];
    }
  }

  /** GenerateCharacterSet: every character of every accepted label, once,
      and the dictionary file that lists them in ascending order.  A missing
      labels.txt is an error (the method throws). */
  method GenerateCharacterSet(labelsText: Option<string>) returns (r: Option<(set<char>, string)>)
    ensures r.None? <==> labelsText.None?
    ensures r.Some? ==> r.value.0 == LabelChars(ReadAllLines(labelsText.value))
    ensures r.Some? ==> r.value.1 == WriteAllLines(CharLines(r.value.0))
  {
    if labelsText.None? {
      return None;
    }
    var lines := ReadAllLines(labelsText.value);
    var uniqueChars: set<char> := {};
    for k := 0 to |lines|
      invariant uniqueChars == UnionOf(lines[..k], LineLabelChars)
    {
      assert lines[..k + 1][..k] == lines[..k];
      var parts := ParseLabelLine(lines[k]);
      if parts.Some? {
        uniqueChars := AddChars(uniqueChars, parts.value.1);
      }
    }
    assert lines[..|lines|] == lines;
    r := Some((uniqueChars, WriteAllLines(CharLines(uniqueChars))));
  }

  // ---------------------------------------------------------------------
  // The dictionary
  // ---------------------------------------------------------------------

  /** The characters a dictionary line adds: all characters of the trimmed
      line, none for a blank line. */
  function DictionaryLineChars(line: string): set<char>
  {
    if IsBlank(line) then {} else set c | c in Trim(line)
  }

  /** The characters of all lines of a dictionary file. */
  function DictionaryChars(lines: seq<string>): set<char>
  {
    UnionOf(lines, DictionaryLineChars)
  }

  /** A character is in the dictionary exactly when some line that is not
      blank holds it after trimming. */
  lemma DictionaryCharsMeans(lines: seq<string>, c: char)
    ensures c in DictionaryChars(lines) <==>
      exists k :: 0 <= k < |lines| && !IsBlank(lines[k]) && c in Trim(lines[k])
  {
    UnionOfMeans(lines, DictionaryLineChars, c);
  }

  /** A line of one character adds that character unless it is white space. */
  lemma DictionaryLineOfChar(ch: char)
    ensures DictionaryLineChars([ch]) == if IsWhiteSpace(ch) then {} else {ch}
  {
    if IsWhiteSpace(ch) {
      assert IsBlank([ch]);
    } else {
      assert [ch][0] == ch;
      TrimNoWhiteSpace([ch]);
      assert (set c | c in [ch]) == {ch};
    }
  }

  /** The dictionary text as LoadDictionary reads it; a file that cannot be
      read leaves the dictionary empty. */
  function LoadedDictionary(text: Option<string>): set<char>
  {
    if text.None? then {} else DictionaryChars(ReadAllLines(text.value))
  }

  /** A dictionary written by GenerateCharacterSet and loaded back holds the
      character set without its white-space characters: a space is written
      as a line of its own, which the load skips as blank. */
  lemma GeneratedDictionaryLoads(chars: set<char>)
    requires forall c :: c in chars ==> !IsLineBreak(c)
    ensures LoadedDictionary(Some(WriteAllLines(CharLines(chars)))) == set c | c in chars && !IsWhiteSpace(c)
  {
    var lines := CharLines(chars);
    CharLinesListChars(chars);
    forall k | 0 <= k < |lines| ensures HasNoLineBreak(lines[k]) {
      assert lines[k] == [lines[k][0]];
    }
    ReadWriteLines(lines);
    forall c ensures c in DictionaryChars(lines) <==> c in chars && !IsWhiteSpace(c) {
      GeneratedDictionaryChar(chars, c);
    }
  }

  lemma GeneratedDictionaryChar(chars: set<char>, c: char)
    ensures c in DictionaryChars(CharLines(chars)) <==> c in chars && !IsWhiteSpace(c)
  {
    var lines := CharLines(chars);
    CharLinesListChars(chars);
    UnionOfMeans(lines, DictionaryLineChars, c);
    if c in chars && !IsWhiteSpace(c) {
      var i :| 0 <= i < |lines| && lines[i] == [c];
      DictionaryLineOfChar(c);
    }
    if c in DictionaryChars(lines) {
      var k :| 0 <= k < |lines| && c in DictionaryLineChars(lines[k]);
      var ch := lines[k][0];
      assert lines[k] == [ch];
      DictionaryLineOfChar(ch);
    }
  }

  /** The tools' loaded dictionary, which the analysis compares with the
      dataset. */
  class DictionaryHolder {
    var dictionaryChars: set<char>

    constructor ()
      ensures dictionaryChars == {}
    {
      dictionaryChars := {};
    }

    /** LoadDictionary: clears the dictionary, then adds the only character
        of every one-character trimmed line and every character of a longer
        one; blank lines add nothing, and a read error leaves it empty. */
    method LoadDictionary(text: Option<string>)
      modifies this
      ensures dictionaryChars == LoadedDictionary(text)
    {
      dictionaryChars := {};
      if text.None? {
        return;
      }
      var lines := ReadAllLines(text.value);
      for k := 0 to |lines|
        invariant dictionaryChars == UnionOf(lines[..k], DictionaryLineChars)
      {
        assert lines[..k + 1][..k] == lines[..k];
        var line := lines[k];
        if !IsBlank(line) {
          var trimmed := Trim(line);
          if |trimmed| == 1 {
            assert (set c | c in trimmed) == {trimmed[0]};
            dictionaryChars := dictionaryChars + {trimmed[0]};
          } else if |trimmed| > 1 {
            dictionaryChars := AddChars(dictionaryChars, trimmed);
          } else {
            TrimShape(line);
            assert false;
          }
        }
      }
      assert lines[..|lines|] == lines;
    }
  }

  // ---------------------------------------------------------------------
  // The analysis
  // ---------------------------------------------------------------------

  /** The statistics AnalyzeDataset returns (EnhancedDatasetInfo); the
      breakdown by Unicode category is not modelled. */
  datatype DatasetInfo = DatasetInfo(
    totalSamples: nat,
    uniqueChars: nat,
    avgLabelLength: real,
    minLength: nat,
    maxLength: nat,
    characterSet: string,
    characterFrequency: map<char, nat>,
    sampleLabels: seq<string>)

  /** The label of one line when it is accepted and its image exists. */
  function SampleLabel(line: string, imageExists: string -> bool): Option<string>
  {
    match ParseLabelLine(line)
    case Some(e) => if imageExists(e.0) then Some(e.1) else None
    case None => None
  }

  /** The labels the analysis counts: those of the accepted lines whose
      image exists, in line order. */
  function SampleLabels(lines: seq<string>, imageExists: string -> bool): seq<string>
  {
    if lines == [] then []
    else
      var init := SampleLabels(lines[..|lines| - 1], imageExists);
      match SampleLabel(lines[|lines| - 1], imageExists)
      case Some(l) => init + [l]
      case None => init
  }

  /** The total length of the labels. */
  function LengthSum(labels: seq<string>): nat
  {
    if labels == [] then 0 else LengthSum(labels[..|labels| - 1]) + |labels[|labels| - 1]|
  }

  /** labelLengths.Min(). */
  function MinLength(labels: seq<string>): (m: nat)
    requires labels != []
    ensures forall i :: 0 <= i < |labels| ==> m <= |labels[i]|
    ensures exists i :: 0 <= i < |labels| && m == |labels[i]|
  {
    var last := |labels[|labels| - 1]|;
    if |labels| == 1 then last
    else
      var init := labels[..|labels| - 1];
      var m := MinLength(init);
      assert forall i :: 0 <= i < |init| ==> init[i] == labels[i];
      if m <= last then m else last
  }

  /** labelLengths.Max(). */
  function MaxLength(labels: seq<string>): (m: nat)
    requires labels != []
    ensures forall i :: 0 <= i < |labels| ==> |labels[i]| <= m
    ensures exists i :: 0 <= i < |labels| && m == |labels[i]|
  {
    var last := |labels[|labels| - 1]|;
    if |labels| == 1 then last
    else
      var init := labels[..|labels| - 1];
      var m := MaxLength(init);
      assert forall i :: 0 <= i < |init| ==> init[i] == labels[i];
      if m >= last then m else last
  }

  /** The statistics of a non-empty list of labels.  allChars is the
      characters of all labels in order. */
  function Analysis(labels: seq<string>): DatasetInfo
    requires labels != []
  {
    var allChars := Flatten(labels);
    DatasetInfo(
      |labels|,
      |Distinct(allChars)|,
      LengthSum(labels) as real / |labels| as real,
      MinLength(labels),
      MaxLength(labels),
      SortedChars(set c | c in allChars),
      Tally(allChars),
      Take(labels, 10))
  }

  lemma {:induction false} FlattenLength(labels: seq<string>)
    ensures |Flatten(labels)| == LengthSum(labels)
  {
    if labels != [] {
      FlattenLength(labels[..|labels| - 1]);
    }
  }

  lemma {:induction false} FlattenChars(labels: seq<string>, c: char)
    ensures c in Flatten(labels) <==> exists i :: 0 <= i < |labels| && c in labels[i]
  {
    if labels != [] {
      var init := labels[..|labels| - 1];
      FlattenChars(init, c);
      assert forall i :: 0 <= i < |init| ==> init[i] == labels[i];
    }
  }

  /** What AnalyzeDataset promises about its statistics: the frequencies are
      those of the characters of the labels and add up to their total
      length, UniqueChars is the number of characters with a frequency, the
      character set lists exactly those in ascending order, the shortest
      label is no longer than the longest, and at most ten labels are
      sampled. */
  lemma AnalysisFacts(labels: seq<string>)
    requires labels != []
    ensures var info := Analysis(labels);
      info.totalSamples == |labels|
      && SumValues(info.characterFrequency) == LengthSum(labels)
      && (forall c :: c in info.characterFrequency <==> exists i :: 0 <= i < |labels| && c in labels[i])
      && info.uniqueChars == |info.characterFrequency.Keys|
      && (forall c :: c in info.characterSet <==> c in info.characterFrequency)
      && (forall i, j :: 0 <= i < j < |info.characterSet| ==> info.characterSet[i] < info.characterSet[j])
      && info.minLength <= info.maxLength
      && |info.sampleLabels| == (if |labels| < 10 then |labels| else 10)
      && info.sampleLabels == labels[..|info.sampleLabels|]
  {
    var allChars := Flatten(labels);
    var info := Analysis(labels);
    assert info.sampleLabels == Take(labels, 10);
    assert info.characterFrequency == Tally(allChars);
    assert info.uniqueChars == |Distinct(allChars)|;
    FrequenciesOfLabels(labels);
    DistinctCount(allChars);
  }

  /** The frequencies add up to the total length of the labels and count
      exactly the characters that occur in them. */
  lemma FrequenciesOfLabels(labels: seq<string>)
    ensures SumValues(Tally(Flatten(labels))) == LengthSum(labels)
    ensures forall c :: c in Tally(Flatten(labels)) <==> exists i :: 0 <= i < |labels| && c in labels[i]
  {
    TallySum(Flatten(labels));
    FlattenLength(labels);
    forall c ensures c in Tally(Flatten(labels)) <==> exists i :: 0 <= i < |labels| && c in labels[i] {
      FlattenChars(labels, c);
    }
  }

  /** allChars.Distinct().Count() is the number of characters counted. */
  lemma DistinctCount(allChars: seq<char>)
    ensures |Distinct(allChars)| == |Tally(allChars).Keys|
  {
    var d := Distinct(allChars);
    NoDuplicatesCard(d);
    assert (set x | x in d) == Tally(allChars).Keys;
  }

  /** The frequency table as the loops fill it: one more occurrence of each
      character of the label, in order. */
  method CountChars(allChars: seq<char>, charFrequency: map<char, nat>, text: string)
    returns (allChars': seq<char>, charFrequency': map<char, nat>)
    requires charFrequency == Tally(allChars)
    ensures allChars' == allChars + text && charFrequency' == Tally(allChars')
  {
    allChars' := allChars;
    charFrequency' := charFrequency;
    for i := 0 to |text|
      invariant allChars' == allChars + text[..i] && charFrequency' == Tally(allChars')
    {
      var ch := text[i];
      CountOne(allChars', charFrequency', ch);
      HeadTakeNext(allChars, text, i);
      allChars' := allChars' + [ch];
      if ch !in charFrequency' {
        charFrequency' := charFrequency'[ch := 0];
      }
      charFrequency' := charFrequency'[ch := charFrequency'[ch] + 1];
    }
    assert text[..|text|] == text;
  }

  /** Setting a missing count to 0 and then adding one counts one more
      occurrence. */
  lemma CountOne(s: seq<char>, f: map<char, nat>, ch: char)
    requires f == Tally(s)
    ensures var g := if ch !in f then f[ch := 0] else f;
      ch in g && g[ch := g[ch] + 1] == Tally(s + [ch])
  {
    TallyAppend(s, ch);
  }

  /** The loop over the lines of labels.txt: the labels of the accepted
      lines whose image exists, their characters in order, and how often
      each occurs. */
  method ReadSamples(lines: seq<string>, imageExists: string -> bool)
    returns (labels: seq<string>, allChars: seq<char>, charFrequency: map<char, nat>)
    ensures labels == SampleLabels(lines, imageExists)
    ensures allChars == Flatten(labels) && charFrequency == Tally(allChars)
  {
    labels := [];
    allChars := [];
    charFrequency := map[];
    for k := 0 to |lines|
      invariant labels == SampleLabels(lines[..k], imageExists)
      invariant allChars == Flatten(labels) && charFrequency == Tally(allChars)
    {
      SampleLabelsStep(lines, k, imageExists);
      var parts := ParseLabelLine(lines[k]);
      if parts.Some? && imageExists(parts.value.0) {
        var text := parts.value.1;
        FlattenAppend(labels, text);
        labels := labels + [text];
        allChars, charFrequency := CountChars(allChars, charFrequency, text);
      }
    }
    assert lines[..|lines|] == lines;
  }

  lemma SampleLabelsStep(lines: seq<string>, k: nat, imageExists: string -> bool)
    requires k < |lines|
    ensures var parts := ParseLabelLine(lines[k]);
      SampleLabels(lines[..k + 1], imageExists)
      == SampleLabels(lines[..k], imageExists) + (if parts.Some? && imageExists(parts.value.0) then [parts.value.1] else [])
  {
    assert lines[..k + 1][..k] == lines[..k];
  }

  lemma FlattenAppend(labels: seq<string>, text: string)
    ensures Flatten(labels + [text]) == Flatten(labels) + text
  {
    assert (labels + [text])[..|labels|] == labels;
  }

  /** AnalyzeDataset: the statistics of the labels whose image exists.  A
      missing labels.txt throws, and so does a dataset with no such label
      (the Average and Min of an empty list). */
  method AnalyzeDataset(labelsText: Option<string>, imageExists: string -> bool) returns (r: Option<DatasetInfo>)
    ensures r.None? <==> labelsText.None? || SampleLabels(ReadAllLines(labelsText.value), imageExists) == []
    ensures r.Some? ==> r.value == Analysis(SampleLabels(ReadAllLines(labelsText.value), imageExists))
  {
    if labelsText.None? {
      return None;
    }
    var lines := ReadAllLines(labelsText.value);
    var labels, allChars, charFrequency := ReadSamples(lines, imageExists);
    if labels == [] {
      return None;
    }
    r := Some(DatasetInfo(
      |labels|,
      |Distinct(allChars)|,
      LengthSum(labels) as real / |labels| as real,
      MinLength(labels),
      MaxLength(labels),
      SortedChars(set c | c in allChars),
      charFrequency,
      Take(labels, 10)));
  }

  // ---------------------------------------------------------------------
  // Comparison with the dictionary and advice
  // ---------------------------------------------------------------------

  /** The two lists of the dictionary comparison. */
  datatype Comparison = Comparison(missingFromDictionary: seq<char>, missingFromDataset: seq<char>)

  /** The comparison shown when a dictionary is loaded: the dataset's
      characters not in the dictionary, and the dictionary's characters not
      in the dataset, each in ascending order. */
  function Compare(datasetChars: set<char>, dictionary: set<char>): (r: Option<Comparison>)
    ensures r.Some? <==> dictionary != {}
    ensures r.Some? ==>
      (forall c :: c in r.value.missingFromDictionary <==> c in datasetChars && c !in dictionary)
      && (forall c :: c in r.value.missingFromDataset <==> c in dictionary && c !in datasetChars)
    ensures r.Some? ==>
      (forall i, j :: 0 <= i < j < |r.value.missingFromDictionary| ==> r.value.missingFromDictionary[i] < r.value.missingFromDictionary[j])
      && (forall i, j :: 0 <= i < j < |r.value.missingFromDataset| ==> r.value.missingFromDataset[i] < r.value.missingFromDataset[j])
  {
    if dictionary == {} then None
    else Some(Comparison(SortedChars(datasetChars - dictionary), SortedChars(dictionary - datasetChars)))
  }

  /** Both lists are empty exactly when the dataset and the dictionary have
      the same characters. */
  lemma CompareEmptyIffEqual(datasetChars: set<char>, dictionary: set<char>)
    requires dictionary != {}
    ensures var r := Compare(datasetChars, dictionary).value;
      (r.missingFromDictionary == [] && r.missingFromDataset == []) <==> datasetChars == dictionary
  {
    var r := Compare(datasetChars, dictionary).value;
    if datasetChars != dictionary {
      if c :| c in datasetChars && c !in dictionary {
        assert c in r.missingFromDictionary;
      } else {
        var c :| c in dictionary && c !in datasetChars;
        assert c in r.missingFromDataset;
      }
    }
  }

  /** The recommendations, without their wording. */
  datatype Advice =
    | SmallDataset
    | ModerateDataset
    | GoodDatasetSize
    | LongLabels
    | LargeCharacterSet
    | SmallCharacterSet
    | MissingFromDictionary(count: nat)
    | MissingFromDataset(count: nat)
    | PerfectMatch

  function SizeAdvice(totalSamples: nat): Advice
  {
    if totalSamples < 1000 then SmallDataset
    else if totalSamples < 5000 then ModerateDataset
    else GoodDatasetSize
  }

  function CharsetAdvice(uniqueChars: nat): seq<Advice>
  {
    if uniqueChars > 200 then [LargeCharacterSet]
    else if uniqueChars < 20 then [SmallCharacterSet]
    else []
  }

  function DictionaryAdvice(datasetChars: set<char>, dictionary: set<char>): seq<Advice>
  {
    if dictionary == {} then []
    else
      var missingFromDict := |datasetChars - dictionary|;
      var missingFromDataset := |dictionary - datasetChars|;
      (if missingFromDict > 0 then [MissingFromDictionary(missingFromDict)] else [])
      + (if missingFromDataset > 0 then [MissingFromDataset(missingFromDataset)] else [])
      + (if missingFromDict == 0 && missingFromDataset == 0 then [PerfectMatch] else [])
  }

  /** The recommendations of DisplayAnalysisResults, in their order. */
  function Recommendations(info: DatasetInfo, dictionary: set<char>): seq<Advice>
  {
    [SizeAdvice(info.totalSamples)] + FurtherAdvice(info, dictionary)
  }

  /** The advice after the size advice. */
  function FurtherAdvice(info: DatasetInfo, dictionary: set<char>): seq<Advice>
  {
    (if info.avgLabelLength > 20.0 then [LongLabels] else [])
    + CharsetAdvice(info.uniqueChars)
    + DictionaryAdvice(info.characterFrequency.Keys, dictionary)
  }

  predicate IsSizeAdvice(a: Advice)
  {
    a.SmallDataset? || a.ModerateDataset? || a.GoodDatasetSize?
  }

  /** The advice follows the thresholds: exactly one size advice, first;
      the long-label, large and small character-set advice exactly when
      their thresholds are crossed; and "perfect match" exactly when a
      dictionary is loaded and has the dataset's characters. */
  lemma RecommendationsFollowThresholds(info: DatasetInfo, dictionary: set<char>)
    ensures var r := Recommendations(info, dictionary);
      r[0] == (if info.totalSamples < 1000 then SmallDataset
               else if info.totalSamples < 5000 then ModerateDataset
               else GoodDatasetSize)
      && (forall a :: a in r[1..] ==> !IsSizeAdvice(a))
      && (LongLabels in r <==> info.avgLabelLength > 20.0)
      && (LargeCharacterSet in r <==> info.uniqueChars > 200)
      && (SmallCharacterSet in r <==> info.uniqueChars < 20)
      && (PerfectMatch in r <==> dictionary != {} && info.characterFrequency.Keys == dictionary)
  {
    var r := Recommendations(info, dictionary);
    assert r[1..] == FurtherAdvice(info, dictionary);
    FurtherAdviceFacts(info, dictionary);
  }

  lemma FurtherAdviceFacts(info: DatasetInfo, dictionary: set<char>)
    ensures var rest := FurtherAdvice(info, dictionary);
      (forall a :: a in rest ==> !IsSizeAdvice(a))
      && (LongLabels in rest <==> info.avgLabelLength > 20.0)
      && (LargeCharacterSet in rest <==> info.uniqueChars > 200)
      && (SmallCharacterSet in rest <==> info.uniqueChars < 20)
      && (PerfectMatch in rest <==> dictionary != {} && info.characterFrequency.Keys == dictionary)
  {
    var isLong := info.avgLabelLength > 20.0;
    DictionaryAdviceFacts(info.characterFrequency.Keys, dictionary);
    CharsetAdviceFacts(info.uniqueChars);
    AdviceOfParts(if isLong then [LongLabels] else [], CharsetAdvice(info.uniqueChars),
                  DictionaryAdvice(info.characterFrequency.Keys, dictionary), isLong, info.uniqueChars,
                  dictionary != {} && info.characterFrequency.Keys == dictionary);
  }

  /** The three parts of the further advice put together. */
  lemma AdviceOfParts(long: seq<Advice>, charset: seq<Advice>, dict: seq<Advice>, isLong: bool, uniqueChars: nat, perfect: bool)
    requires long == if isLong then [LongLabels] else []
    requires forall a :: a in charset ==> a.LargeCharacterSet? || a.SmallCharacterSet?
    requires LargeCharacterSet in charset <==> uniqueChars > 200
    requires SmallCharacterSet in charset <==> uniqueChars < 20
    requires forall a :: a in dict ==> a.MissingFromDictionary? || a.MissingFromDataset? || a.PerfectMatch?
    requires PerfectMatch in dict <==> perfect
    ensures var rest := long + charset + dict;
      (forall a :: a in rest ==> !IsSizeAdvice(a))
      && (LongLabels in rest <==> isLong)
      && (LargeCharacterSet in rest <==> uniqueChars > 200)
      && (SmallCharacterSet in rest <==> uniqueChars < 20)
      && (PerfectMatch in rest <==> perfect)
  {
    assert forall a :: a in long + charset + dict <==> a in long || a in charset || a in dict;
  }

  /** The character-set advice holds at most one of its two kinds, each
      exactly when its threshold is crossed. */
  lemma CharsetAdviceFacts(uniqueChars: nat)
    ensures forall a :: a in CharsetAdvice(uniqueChars) ==> a.LargeCharacterSet? || a.SmallCharacterSet?
    ensures LargeCharacterSet in CharsetAdvice(uniqueChars) <==> uniqueChars > 200
    ensures SmallCharacterSet in CharsetAdvice(uniqueChars) <==> uniqueChars < 20
  {
  }

  /** The dictionary advice holds no other kind of advice, and "perfect
      match" exactly when a dictionary is loaded and has the dataset's
      characters. */
  lemma DictionaryAdviceFacts(keys: set<char>, dictionary: set<char>)
    ensures forall a :: a in DictionaryAdvice(keys, dictionary) ==> a.MissingFromDictionary? || a.MissingFromDataset? || a.PerfectMatch?
    ensures PerfectMatch in DictionaryAdvice(keys, dictionary) <==> dictionary != {} && keys == dictionary
  {
    if dictionary != {} && keys != dictionary {
      if c :| c in keys && c !in dictionary {
        assert c in keys - dictionary;
      } else {
        var c :| c in dictionary && c !in keys;
        assert c in dictionary - keys;
      }
    }
  }

  // ---------------------------------------------------------------------
  // TextRecognitionDataGenerator to PaddleOCR
  // ---------------------------------------------------------------------

  /** An accepted line of the generator's labels file whose image exists. */
  datatype TrdgEntry = TrdgEntry(filename: string, text: string, imagePath: string)

  /** A copy the conversion or the merge makes, from a source path to a
      target path. */
  datatype Copy = Copy(source: string, target: string)

  function TrdgEntryOf(line: string, trdgDir: string, imageExists: string -> bool): Option<TrdgEntry>
  {
    match ParseLabelLine(line)
    case Some(e) =>
      var imagePath := Combine(trdgDir, e.0);
      if imageExists(imagePath) then Some(TrdgEntry(e.0, e.1, imagePath)) else None
    case None => None
  }

  /** The entries of the generator's labels file, in line order. */
  function TrdgEntries(lines: seq<string>, trdgDir: string, imageExists: string -> bool): seq<TrdgEntry>
  {
    if lines == [] then []
    else
      var init := TrdgEntries(lines[..|lines| - 1], trdgDir, imageExists);
      match TrdgEntryOf(lines[|lines| - 1], trdgDir, imageExists)
      case Some(e) => init + [e]
      case None => init
  }

  /** Every entry comes from an accepted line whose image exists. */
  lemma {:induction false} TrdgEntriesFromLines(lines: seq<string>, trdgDir: string, imageExists: string -> bool)
    ensures forall e :: e in TrdgEntries(lines, trdgDir, imageExists) ==>
      imageExists(e.imagePath) && e.imagePath == Combine(trdgDir, e.filename)
      && exists k :: 0 <= k < |lines| && ParseLabelLine(lines[k]) == Some((e.filename, e.text))
  {
    if lines != [] {
      var init := lines[..|lines| - 1];
      TrdgEntriesFromLines(init, trdgDir, imageExists);
      assert forall k :: 0 <= k < |init| ==> init[k] == lines[k];
    }
  }

  /** The name of the i-th image of a split: "{prefix}_{i:D6}.jpg". */
  function SplitImageName(prefix: string, i: nat): string
  {
    prefix + "_" + PadDigits(i, 6) + ".jpg"
  }

  /** Different positions in a split give different image names. */
  lemma SplitImageNamesDiffer(prefix: string, i: nat, j: nat)
    requires SplitImageName(prefix, i) == SplitImageName(prefix, j)
    ensures i == j
  {
    var a := PadDigits(i, 6);
    var b := PadDigits(j, 6);
    var n := |prefix| + 1;
    assert |a| == |b|;
    assert a == SplitImageName(prefix, i)[n..n + |a|];
    assert b == SplitImageName(prefix, j)[n..n + |b|];
    PadDigitsInjective(i, j, 6);
  }

  /** The line of rec_gt_{prefix}.txt for the i-th image of a split. */
  function GtLine(prefix: string, i: nat, text: string): string
  {
    prefix + "_images/" + SplitImageName(prefix, i) + "\t" + text
  }

  /** The result of the conversion: the copies into train_images and
      val_images, and the lines of rec_gt_train.txt and rec_gt_val.txt. */
  datatype Conversion = Conversion(trainCopies: seq<Copy>, valCopies: seq<Copy>, trainLabels: seq<string>, valLabels: seq<string>)

  /** The copies and rec_gt lines of one split: the i-th entry is copied to
      the split's folder under the split's i-th name, and its line names
      that image and its label. */
  predicate IsSplitOutput(data: seq<TrdgEntry>, imgDir: string, prefix: string, copies: seq<Copy>, labels: seq<string>)
  {
    |copies| == |data| == |labels|
    && forall i :: 0 <= i < |data| ==>
      copies[i] == Copy(data[i].imagePath, Combine(imgDir, SplitImageName(prefix, i)))
      && labels[i] == GtLine(prefix, i, data[i].text)
  }

  /** One loop of the conversion: the entries of one split, renamed in order. */
  method ConvertSplit(data: seq<TrdgEntry>, imgDir: string, prefix: string)
    returns (copies: seq<Copy>, labels: seq<string>)
    ensures IsSplitOutput(data, imgDir, prefix, copies, labels)
  {
    copies := [];
    labels := [];
    for i := 0 to |data|
      invariant |copies| == i == |labels|
      invariant forall j :: 0 <= j < i ==>
        copies[j] == Copy(data[j].imagePath, Combine(imgDir, SplitImageName(prefix, j)))
        && labels[j] == GtLine(prefix, j, data[j].text)
    {
      var entry := data[i];
      var newFilename := SplitImageName(prefix, i);
      copies := copies + [Copy(entry.imagePath, Combine(imgDir, newFilename))];
      labels := labels + [GtLine(prefix, i, entry.text)];
    }
  }

  /** The first (int)(count * splitRatio) shuffled entries are for training,
      the rest for validation; for a ratio that is not negative the
      truncating cast is the floor. */
  function SplitIndex(count: nat, splitRatio: real): int
  {
    (count as real * splitRatio).Floor
  }

  /** ConvertTrdgToPaddleOcr: throws (None) when labels.txt is missing;
      otherwise reads the accepted lines whose image exists, shuffles them,
      and renames the first SplitIndex entries into train_images as
      train_000000.jpg, .. and the rest into val_images as val_000000.jpg,
      .., with one rec_gt line per image. */
  method ConvertTrdgToPaddleOcr(labelsText: Option<string>, trdgDir: string, outputDir: string, imageExists: string -> bool,
                                shuffle: seq<TrdgEntry> -> seq<TrdgEntry>, splitRatio: real)
    returns (r: Option<Conversion>)
    ensures r.None? <==> labelsText.None?
    ensures r.Some? ==>
      var shuffled := shuffle(TrdgEntries(ReadAllLines(labelsText.value), trdgDir, imageExists));
      var split := SplitIndex(|shuffled|, splitRatio);
      IsSplitOutput(Take(shuffled, split), Combine(outputDir, "train_images"), "train", r.value.trainCopies, r.value.trainLabels)
      && IsSplitOutput(Skip(shuffled, split), Combine(outputDir, "val_images"), "val", r.value.valCopies, r.value.valLabels)
  {
    if labelsText.None? {
      return None;
    }
    var trainImgDir := Combine(outputDir, "train_images");
    var valImgDir := Combine(outputDir, "val_images");
    var lines := ReadAllLines(labelsText.value);
    var dataEntries := ReadTrdgEntries(lines, trdgDir, imageExists);
    var shuffled := shuffle(dataEntries);
    var splitIndex := SplitIndex(|shuffled|, splitRatio);
    var trainData := Take(shuffled, splitIndex);
    var valData := Skip(shuffled, splitIndex);
    var trainCopies, trainLabels := ConvertSplit(trainData, trainImgDir, "train");
    var valCopies, valLabels := ConvertSplit(valData, valImgDir, "val");
    r := Some(Conversion(trainCopies, valCopies, trainLabels, valLabels));
  }

  /** The loop that collects the entries of the generator's labels file. */
  method ReadTrdgEntries(lines: seq<string>, trdgDir: string, imageExists: string -> bool) returns (entries: seq<TrdgEntry>)
    ensures entries == TrdgEntries(lines, trdgDir, imageExists)
  {
    entries := [];
    for k := 0 to |lines|
      invariant entries == TrdgEntries(lines[..k], trdgDir, imageExists)
    {
      assert lines[..k + 1][..k] == lines[..k];
      var entry := ReadTrdgLine(lines[k], trdgDir, imageExists);
      if entry.Some? {
        entries := entries + [entry.value];
      }
    }
    assert lines[..|lines|] == lines;
  }

  /** The body of that loop: an accepted line whose image exists. */
  method ReadTrdgLine(line: string, trdgDir: string, imageExists: string -> bool) returns (entry: Option<TrdgEntry>)
    ensures entry == TrdgEntryOf(line, trdgDir, imageExists)
  {
    entry := None;
    var parts := ParseLabelLine(line);
    if parts.Some? {
      var imagePath := Combine(trdgDir, parts.value.0);
      if imageExists(imagePath) {
        entry := Some(TrdgEntry(parts.value.0, parts.value.1, imagePath));
      }
    }
  }

  /** Every entry goes to exactly one of the two splits: the training and
      validation entries together are a permutation of the entries, so the
      two counts add up to the number of entries. */
  lemma ConversionKeepsEntries(entries: seq<TrdgEntry>, shuffle: seq<TrdgEntry> -> seq<TrdgEntry>, split: int)
    requires IsShuffle(shuffle)
    ensures multiset(Take(shuffle(entries), split) + Skip(shuffle(entries), split)) == multiset(entries)
    ensures |Take(shuffle(entries), split)| + |Skip(shuffle(entries), split)| == |entries|
  {
    var shuffled := shuffle(entries);
    TakeSkip(shuffled, split);
    assert multiset(shuffled) == multiset(entries);
    assert |shuffled| == |multiset(shuffled)| == |multiset(entries)| == |entries|;
  }

  // ---------------------------------------------------------------------
  // Merging OCR datasets
  // ---------------------------------------------------------------------

  /** One dataset to merge: its folder, the text of its labels.txt (None
      when there is none) and the files Directory.GetFiles lists. */
  datatype OcrSource = OcrSource(dir: string, labelsText: Option<string>, files: seq<string>)

  /** The image extensions the merge takes, compared in lower case. */
  predicate IsMergeImage(path: string)
  {
    Lower(Extension(FileName(path))) in {".jpg", ".jpeg", ".png", ".bmp", ".tiff"}
  }

  /** The files with an image extension, in listing order. */
  function MergeImagesOf(files: seq<string>): seq<string>
  {
    if files == [] then []
    else
      var init := MergeImagesOf(files[..|files| - 1]);
      if IsMergeImage(files[|files| - 1]) then init + [files[|files| - 1]] else init
  }

  /** One image of the merged dataset: where it came from, its new name and
      its line of the merged labels.txt. */
  datatype Merged = Merged(source: string, name: string, text: string)

  /** The image's line of the merged labels.txt. */
  function LineOf(e: Merged): string
  {
    e.name + " " + e.text
  }

  /** The image processed as number `c`: named "{c}.jpg", labelled with its
      entry in the dataset's labels.txt or "unknown_{c}". */
  function MergedEntry(path: string, labelsDict: map<string, string>, c: nat): Merged
  {
    var name := OcrAnnotation.NumberName(c);
    var text := if FileName(path) in labelsDict then labelsDict[FileName(path)] else "unknown_" + NatToString(c);
    Merged(path, name, text)
  }

  /** The images of one dataset that were processed without an error, the
      counter starting at `start` and counting only those. */
  function MergedImages(images: seq<string>, labelsDict: map<string, string>, fails: string -> bool, start: nat): seq<Merged>
  {
    if images == [] then []
    else
      var init := MergedImages(images[..|images| - 1], labelsDict, fails, start);
      var last := images[|images| - 1];
      if fails(last) then init else init + [MergedEntry(last, labelsDict, start + |init|)]
  }

  /** The images of one dataset, the counter starting at `start`; a dataset
      without labels.txt is skipped. */
  function MergedDataset(ds: OcrSource, le: (string, string) -> bool, fails: string -> bool, start: nat): seq<Merged>
  {
    if ds.labelsText.None? then []
    else MergedImages(SortBy(MergeImagesOf(ds.files), le), LabelsDict(ReadAllLines(ds.labelsText.value)), fails, start)
  }

  /** The images of all datasets, in order, the counter running on. */
  function MergedAll(datasets: seq<OcrSource>, le: (string, string) -> bool, fails: string -> bool): seq<Merged>
  {
    if datasets == [] then []
    else
      var init := MergedAll(datasets[..|datasets| - 1], le, fails);
      init + MergedDataset(datasets[|datasets| - 1], le, fails, |init|)
  }

  /** The images are named {start}.jpg, {start + 1}.jpg, .. in order. */
  predicate NumberedFrom(r: seq<Merged>, start: nat)
  {
    forall i :: 0 <= i < |r| ==> r[i].name == OcrAnnotation.NumberName(start + i)
  }

  /** The merged images of one dataset are numbered on from the counter. */
  lemma {:induction false} MergedImagesNumbered(images: seq<string>, labelsDict: map<string, string>, fails: string -> bool, start: nat)
    ensures NumberedFrom(MergedImages(images, labelsDict, fails, start), start)
  {
    if images != [] {
      var init := images[..|images| - 1];
      var last := images[|images| - 1];
      MergedImagesNumbered(init, labelsDict, fails, start);
      var ri := MergedImages(init, labelsDict, fails, start);
      var r := MergedImages(images, labelsDict, fails, start);
      if !fails(last) {
        var e := MergedEntry(last, labelsDict, start + |ri|);
        assert r == ri + [e];
      } else {
        assert r == ri;
      }
      forall i | 0 <= i < |r| ensures r[i].name == OcrAnnotation.NumberName(start + i) {
        if i < |ri| {
          assert r[i] == ri[i];
          assert ri[i].name == OcrAnnotation.NumberName(start + i);
        } else {
          assert !fails(last) && i == |ri|;
          assert r[i] == MergedEntry(last, labelsDict, start + |ri|);
        }
      }
    }
  }

  /** The source image of each merged image. */
  function Sources(r: seq<Merged>): (s: seq<string>)
    ensures |s| == |r| && forall i :: 0 <= i < |r| ==> s[i] == r[i].source
  {
    seq(|r|, i requires 0 <= i < |r| => r[i].source)
  }

  /** The images processed without an error, in order. */
  function Succeeded(images: seq<string>, fails: string -> bool): seq<string>
  {
    if images == [] then []
    else
      var init := Succeeded(images[..|images| - 1], fails);
      if fails(images[|images| - 1]) then init else init + [images[|images| - 1]]
  }

  /** An image is among those processed without an error exactly when it
      is one of the images and its processing does not fail. */
  lemma {:induction false} SucceededMembers(images: seq<string>, fails: string -> bool, x: string)
    ensures x in Succeeded(images, fails) <==> x in images && !fails(x)
  {
    if images != [] {
      SucceededMembers(images[..|images| - 1], fails, x);
      assert images == images[..|images| - 1] + [images[|images| - 1]];
    }
  }

  /** The merged images of one dataset are those processed without an
      error, in order. */
  lemma {:induction false} MergedImagesSources(images: seq<string>, labelsDict: map<string, string>, fails: string -> bool, start: nat)
    ensures Sources(MergedImages(images, labelsDict, fails, start)) == Succeeded(images, fails)
  {
    if images != [] {
      var init := images[..|images| - 1];
      var last := images[|images| - 1];
      MergedImagesSources(init, labelsDict, fails, start);
      var ri := MergedImages(init, labelsDict, fails, start);
      if !fails(last) {
        SourcesSnoc(ri, MergedEntry(last, labelsDict, start + |ri|));
      }
    }
  }

  lemma SourcesSnoc(r: seq<Merged>, e: Merged)
    ensures Sources(r + [e]) == Sources(r) + [e.source]
  {
  }

  /** The merged images are numbered 0, 1, .. in order: the counter starts
      at 0 and goes up by one for every image processed without an error. */
  lemma {:induction false} MergedAllNumbered(datasets: seq<OcrSource>, le: (string, string) -> bool, fails: string -> bool)
    ensures NumberedFrom(MergedAll(datasets, le, fails), 0)
  {
    if datasets != [] {
      var init := MergedAll(datasets[..|datasets| - 1], le, fails);
      MergedAllNumbered(datasets[..|datasets| - 1], le, fails);
      MergedDatasetNumbered(datasets[|datasets| - 1], le, fails, |init|);
      NumberedConcat(init, MergedDataset(datasets[|datasets| - 1], le, fails, |init|), 0);
    }
  }

  /** Two runs numbered one after the other make one numbered run. */
  lemma NumberedConcat(a: seq<Merged>, b: seq<Merged>, start: nat)
    requires NumberedFrom(a, start) && NumberedFrom(b, start + |a|)
    ensures NumberedFrom(a + b, start)
  {
    forall i | 0 <= i < |a + b| ensures (a + b)[i].name == OcrAnnotation.NumberName(start + i) {
      if i >= |a| {
        assert (a + b)[i] == b[i - |a|];
      }
    }
  }

  /** The images of one dataset are named on from the counter. */
  lemma MergedDatasetNumbered(ds: OcrSource, le: (string, string) -> bool, fails: string -> bool, start: nat)
    ensures NumberedFrom(MergedDataset(ds, le, fails, start), start)
  {
    if ds.labelsText.Some? {
      MergedImagesNumbered(SortBy(MergeImagesOf(ds.files), le), LabelsDict(ReadAllLines(ds.labelsText.value)), fails, start);
    }
  }

  /** The lines of the merged labels.txt. */
  function LinesOf(m: seq<Merged>): (r: seq<string>)
    ensures |r| == |m| && forall i :: 0 <= i < |m| ==> r[i] == LineOf(m[i])
  {
    seq(|m|, i requires 0 <= i < |m| => LineOf(m[i]))
  }

  /** The copies into the output folder. */
  function CopiesOf(m: seq<Merged>, outputDir: string): (r: seq<Copy>)
    ensures |r| == |m| && forall i :: 0 <= i < |m| ==> r[i] == Copy(m[i].source, Combine(outputDir, m[i].name))
  {
    seq(|m|, i requires 0 <= i < |m| => Copy(m[i].source, Combine(outputDir, m[i].name)))
  }

  lemma OutputsConcat(a: seq<Merged>, b: seq<Merged>, outputDir: string)
    ensures LinesOf(a + b) == LinesOf(a) + LinesOf(b)
    ensures CopiesOf(a + b, outputDir) == CopiesOf(a, outputDir) + CopiesOf(b, outputDir)
  {
  }

  /** A label the tools read back unchanged: not empty, not ending in white
      space, and on one line. */
  predicate IsLabelText(t: string)
  {
    t != [] && !IsWhiteSpace(t[|t| - 1]) && HasNoLineBreak(t)
  }

  /** The label of an accepted line of a text file is such a label. */
  lemma ParsedLabelIsLabelText(line: string)
    requires HasNoLineBreak(line) && ParseLabelLine(line).Some?
    ensures IsLabelText(ParseLabelLine(line).value.1)
  {
    TrimShape(line);
    var t := Trim(line);
    var e := ParseLabelLine(line).value;
    assert t == e.0 + " " + e.1;
    assert e.1 == t[|e.0| + 1..];
    assert e.1[|e.1| - 1] == t[|t| - 1];
    ContainedNoLineBreak(line, t);
    SuffixNoLineBreak(t, |e.0| + 1);
  }

  lemma ContainedNoLineBreak(s: string, t: string)
    requires HasNoLineBreak(s) && Contains(s, t)
    ensures HasNoLineBreak(t)
  {
    var i :| 0 <= i <= |s| - |t| && OccursAt(s, t, i);
    forall j | 0 <= j < |t| ensures !IsLineBreak(t[j]) {
      assert t[j] == s[i + j];
    }
  }

  lemma SuffixNoLineBreak(t: string, k: nat)
    requires HasNoLineBreak(t) && k <= |t|
    ensures HasNoLineBreak(t[k..])
  {
    forall j | 0 <= j < |t| - k ensures !IsLineBreak(t[k..][j]) {
      assert t[k..][j] == t[k + j];
    }
  }

  /** Every label of a labels.txt dictionary is such a label. */
  lemma LabelsDictIsLabelText(lines: seq<string>, name: string)
    requires forall k :: 0 <= k < |lines| ==> HasNoLineBreak(lines[k])
    requires name in LabelsDict(lines)
    ensures IsLabelText(LabelsDict(lines)[name])
  {
    var es := Map(lines, ParseLabelLine);
    CollectValueFrom(es, name);
    var k :| 0 <= k < |es| && es[k] == Some((name, LabelsDict(lines)[name]));
    ParsedLabelIsLabelText(lines[k]);
  }

  /** "{c}.jpg" has no white space. */
  lemma NumberNameHasNoWhiteSpace(c: nat)
    ensures OcrAnnotation.NumberName(c) != []
    ensures forall j :: 0 <= j < |OcrAnnotation.NumberName(c)| ==> !IsWhiteSpace(OcrAnnotation.NumberName(c)[j])
  {
    var d := NatToString(c);
    forall j | 0 <= j < |OcrAnnotation.NumberName(c)| ensures !IsWhiteSpace(OcrAnnotation.NumberName(c)[j]) {
      if j < |d| {
        assert IsDigit(d[j]);
      }
    }
  }

  /** A file name the tools read back unchanged: not empty, no white space. */
  predicate IsNameText(n: string)
  {
    n != [] && forall j :: 0 <= j < |n| ==> !IsWhiteSpace(n[j])
  }

  /** "<name> <label>" is on one line when its two parts are. */
  lemma JoinedNoLineBreak(name: string, text: string)
    requires IsNameText(name) && IsLabelText(text)
    ensures HasNoLineBreak(name + " " + text)
  {
    var line := name + " " + text;
    forall j | 0 <= j < |line| ensures !IsLineBreak(line[j]) {
      if j < |name| {
        assert line[j] == name[j];
      } else if j > |name| {
        assert line[j] == text[j - |name| - 1];
      }
    }
  }

  /** "unknown_{c}" is a label the tools read back unchanged. */
  lemma UnknownIsLabelText(c: nat)
    ensures IsLabelText("unknown_" + NatToString(c))
  {
    var d := NatToString(c);
    var t := "unknown_" + d;
    assert t[|t| - 1] == d[|d| - 1];
    forall j | 0 <= j < |t| ensures !IsLineBreak(t[j]) {
      if j >= 8 {
        assert t[j] == d[j - 8];
      }
    }
  }

  /** Whether a merged image's name and label are ones the tools read back
      unchanged. */
  predicate WellFormed(e: Merged)
  {
    IsNameText(e.name) && IsLabelText(e.text)
  }

  /** A merged image's line reads back as its name and its label. */
  lemma MergedEntryWellFormed(path: string, lines: seq<string>, c: nat)
    requires forall k :: 0 <= k < |lines| ==> HasNoLineBreak(lines[k])
    ensures WellFormed(MergedEntry(path, LabelsDict(lines), c))
  {
    NumberNameHasNoWhiteSpace(c);
    if FileName(path) in LabelsDict(lines) {
      LabelsDictIsLabelText(lines, FileName(path));
    } else {
      UnknownIsLabelText(c);
    }
  }

  /** Every merged image's name and label are ones the tools read back. */
  predicate AllWellFormed(m: seq<Merged>)
  {
    forall i :: 0 <= i < |m| ==> WellFormed(m[i])
  }

  lemma AllWellFormedConcat(a: seq<Merged>, b: seq<Merged>)
    requires AllWellFormed(a) && AllWellFormed(b)
    ensures AllWellFormed(a + b)
  {
    forall i | 0 <= i < |a| + |b| ensures WellFormed((a + b)[i]) {
      if i < |a| {
        assert (a + b)[i] == a[i];
      } else {
        assert (a + b)[i] == b[i - |a|];
      }
    }
  }

  lemma {:induction false} MergedImagesWellFormed(images: seq<string>, lines: seq<string>, fails: string -> bool, start: nat)
    requires forall k :: 0 <= k < |lines| ==> HasNoLineBreak(lines[k])
    ensures AllWellFormed(MergedImages(images, LabelsDict(lines), fails, start))
  {
    if images != [] {
      var init := images[..|images| - 1];
      var last := images[|images| - 1];
      MergedImagesWellFormed(init, lines, fails, start);
      var ri := MergedImages(init, LabelsDict(lines), fails, start);
      if !fails(last) {
        MergedEntryWellFormed(last, lines, start + |ri|);
        AllWellFormedConcat(ri, [MergedEntry(last, LabelsDict(lines), start + |ri|)]);
      }
    }
  }

  lemma {:induction false} MergedAllWellFormed(datasets: seq<OcrSource>, le: (string, string) -> bool, fails: string -> bool)
    ensures AllWellFormed(MergedAll(datasets, le, fails))
  {
    if datasets != [] {
      var init := MergedAll(datasets[..|datasets| - 1], le, fails);
      MergedAllWellFormed(datasets[..|datasets| - 1], le, fails);
      var ds := datasets[|datasets| - 1];
      if ds.labelsText.Some? {
        MergedImagesWellFormed(SortBy(MergeImagesOf(ds.files), le), ReadAllLines(ds.labelsText.value), fails, |init|);
      }
      AllWellFormedConcat(init, MergedDataset(ds, le, fails, |init|));
    }
  }

  /** Whether each line is on one line and reads back as the matching
      merged image's name and label. */
  predicate ParsesAs(lines: seq<string>, m: seq<Merged>)
  {
    |lines| == |m|
    && (forall k :: 0 <= k < |lines| ==> HasNoLineBreak(lines[k]))
    && forall k :: 0 <= k < |lines| ==> ParseLabelLine(lines[k]) == Some((m[k].name, m[k].text))
  }

  lemma LinesParse(m: seq<Merged>)
    requires AllWellFormed(m)
    ensures ParsesAs(LinesOf(m), m)
  {
    var lines := LinesOf(m);
    forall k | 0 <= k < |lines| ensures HasNoLineBreak(lines[k]) && ParseLabelLine(lines[k]) == Some((m[k].name, m[k].text)) {
      assert WellFormed(m[k]);
      JoinedNoLineBreak(m[k].name, m[k].text);
      LabelLineRoundTrip(m[k].name, m[k].text);
    }
  }

  /** Lines naming distinct images give each image its own label. */
  lemma NumberedDict(lines: seq<string>, m: seq<Merged>)
    requires ParsesAs(lines, m) && NumberedFrom(m, 0)
    ensures forall e :: e in m ==> e.name in LabelsDict(lines) && LabelsDict(lines)[e.name] == e.text
  {
    forall e | e in m ensures e.name in LabelsDict(lines) && LabelsDict(lines)[e.name] == e.text {
      var k :| 0 <= k < |m| && m[k] == e;
      forall j | k < j < |lines| && ParseLabelLine(lines[j]).Some?
        ensures ParseLabelLine(lines[j]).value.0 != e.name
      {
        if m[j].name == e.name {
          OcrAnnotation.NumberNameInjective(j, k);
        }
      }
      LabelsDictLastWins(lines, k);
    }
  }

  /** The merged labels.txt, read back as the tools read a labels.txt, gives
      every merged image its label: each line is the image's new name, a
      space and its label, and the dictionary built from the file maps each
      new name to that label. */
  lemma MergedLabelsReadBack(datasets: seq<OcrSource>, le: (string, string) -> bool, fails: string -> bool)
    ensures ReadAllLines(WriteAllLines(LinesOf(MergedAll(datasets, le, fails)))) == LinesOf(MergedAll(datasets, le, fails))
    ensures forall e :: e in MergedAll(datasets, le, fails) ==>
      e.name in LabelsDict(LinesOf(MergedAll(datasets, le, fails)))
      && LabelsDict(LinesOf(MergedAll(datasets, le, fails)))[e.name] == e.text
  {
    var m := MergedAll(datasets, le, fails);
    MergedAllWellFormed(datasets, le, fails);
    MergedAllNumbered(datasets, le, fails);
    LinesParse(m);
    ReadWriteLines(LinesOf(m));
    NumberedDict(LinesOf(m), m);
  }

  /** Where the copies go. */
  function Targets(copies: seq<Copy>): (r: seq<string>)
    ensures |r| == |copies| && forall i :: 0 <= i < |copies| ==> r[i] == copies[i].target
  {
    seq(|copies|, i requires 0 <= i < |copies| => copies[i].target)
  }

  /** A non-empty merged dataset passes the OCR annotator's check that the
      images in its folder are numbered 0..n-1, so the annotator opens it
      without renaming them. */
  lemma MergedIsSequential(datasets: seq<OcrSource>, le: (string, string) -> bool, fails: string -> bool, outputDir: string)
    requires 0 < |MergedAll(datasets, le, fails)| <= Int32Max
    ensures OcrAnnotation.AreFilesNumberedSequentially(Targets(CopiesOf(MergedAll(datasets, le, fails), outputDir))) == Some(true)
  {
    var r := MergedAll(datasets, le, fails);
    var files := Targets(CopiesOf(r, outputDir));
    MergedAllNumbered(datasets, le, fails);
    forall i | 0 <= i < |files| ensures Map(files, FileName)[i] == OcrAnnotation.NumberNames(|files|)[i] {
      OcrAnnotation.NumberNameFacts(i);
      FileNameOfCombine(outputDir, r[i].name);
    }
    assert Map(files, FileName) == OcrAnnotation.NumberNames(|files|);
    OcrAnnotation.RenamedAreSequential(files);
  }

  /** The loop over the images of one dataset. */
  method MergeImages(images: seq<string>, labelsDict: map<string, string>, fails: string -> bool, outputDir: string,
                     imageCounter: nat, mergedLabels: seq<string>, copies: seq<Copy>)
    returns (imageCounter': nat, mergedLabels': seq<string>, copies': seq<Copy>)
    ensures imageCounter' == imageCounter + |MergedImages(images, labelsDict, fails, imageCounter)|
    ensures mergedLabels' == mergedLabels + LinesOf(MergedImages(images, labelsDict, fails, imageCounter))
    ensures copies' == copies + CopiesOf(MergedImages(images, labelsDict, fails, imageCounter), outputDir)
  {
    imageCounter' := imageCounter;
    mergedLabels' := mergedLabels;
    copies' := copies;
    ghost var merged: seq<Merged> := [];
    for k := 0 to |images|
      invariant merged == MergedImages(images[..k], labelsDict, fails, imageCounter)
      invariant imageCounter' == imageCounter + |merged|
      invariant mergedLabels' == mergedLabels + LinesOf(merged)
      invariant copies' == copies + CopiesOf(merged, outputDir)
    {
      MergedImagesStep(images, k, labelsDict, fails, imageCounter);
      var imagePath := images[k];
      if !fails(imagePath) {
        var line, copy := ProcessImage(imagePath, labelsDict, outputDir, imageCounter');
        MergeOne(merged, imagePath, labelsDict, imageCounter', outputDir);
        AppendOneAssoc(mergedLabels, LinesOf(merged), line);
        AppendOneAssoc(copies, CopiesOf(merged, outputDir), copy);
        copies' := copies' + [copy];
        mergedLabels' := mergedLabels' + [line];
        imageCounter' := imageCounter' + 1;
        merged := merged + [MergedEntry(imagePath, labelsDict, imageCounter' - 1)];
      }
    }
    assert images[..|images|] == images;
  }

  /** The body of the loop for an image processed without an error: the
      copy to {counter}.jpg and the line of the merged labels.txt, with the
      label of the image's own dataset or "unknown_{counter}". */
  method ProcessImage(imagePath: string, labelsDict: map<string, string>, outputDir: string, imageCounter: nat)
    returns (line: string, copy: Copy)
    ensures line == LineOf(MergedEntry(imagePath, labelsDict, imageCounter))
    ensures copy == Copy(imagePath, Combine(outputDir, OcrAnnotation.NumberName(imageCounter)))
  {
    var originalFilename := FileName(imagePath);
    var newFilename := OcrAnnotation.NumberName(imageCounter);
    var text := if originalFilename in labelsDict then labelsDict[originalFilename]
                else "unknown_" + NatToString(imageCounter);
    line := newFilename + " " + text;
    copy := Copy(imagePath, Combine(outputDir, newFilename));
  }

  lemma MergeOne(m: seq<Merged>, imagePath: string, labelsDict: map<string, string>, c: nat, outputDir: string)
    ensures var e := MergedEntry(imagePath, labelsDict, c);
      LinesOf(m + [e]) == LinesOf(m) + [LineOf(e)]
      && CopiesOf(m + [e], outputDir) == CopiesOf(m, outputDir) + [Copy(imagePath, Combine(outputDir, OcrAnnotation.NumberName(c)))]
  {
    var e := MergedEntry(imagePath, labelsDict, c);
    OutputsConcat(m, [e], outputDir);
    assert LinesOf([e]) == [LineOf(e)];
    assert CopiesOf([e], outputDir) == [Copy(imagePath, Combine(outputDir, OcrAnnotation.NumberName(c)))];
  }

  lemma MergedImagesStep(images: seq<string>, k: nat, labelsDict: map<string, string>, fails: string -> bool, start: nat)
    requires k < |images|
    ensures var m := MergedImages(images[..k], labelsDict, fails, start);
      MergedImages(images[..k + 1], labelsDict, fails, start)
      == m + (if fails(images[k]) then [] else [MergedEntry(images[k], labelsDict, start + |m|)])
  {
    assert images[..k + 1] == images[..k] + [images[k]];
    MergedImagesSnoc(images[..k], images[k], labelsDict, fails, start);
  }

  lemma MergedImagesSnoc(images: seq<string>, x: string, labelsDict: map<string, string>, fails: string -> bool, start: nat)
    ensures var m := MergedImages(images, labelsDict, fails, start);
      MergedImages(images + [x], labelsDict, fails, start)
      == m + (if fails(x) then [] else [MergedEntry(x, labelsDict, start + |m|)])
  {
    assert (images + [x])[..|images|] == images;
  }

  /** MergeDatasets: for every dataset with a labels.txt, its image files in
      name order are copied (or scaled) to the output folder as
      {counter}.jpg, the counter going up only for an image processed
      without an error; the merged labels.txt holds one line per image. */
  method MergeDatasets(datasets: seq<OcrSource>, outputDir: string, le: (string, string) -> bool, fails: string -> bool)
    returns (mergedLabelsText: string, copies: seq<Copy>, imageCounter: nat)
    ensures imageCounter == |MergedAll(datasets, le, fails)|
    ensures mergedLabelsText == WriteAllLines(LinesOf(MergedAll(datasets, le, fails)))
    ensures copies == CopiesOf(MergedAll(datasets, le, fails), outputDir)
  {
    var mergedLabels: seq<string> := [];
    copies := [];
    imageCounter := 0;
    for d := 0 to |datasets|
      invariant imageCounter == |MergedAll(datasets[..d], le, fails)|
      invariant mergedLabels == LinesOf(MergedAll(datasets[..d], le, fails))
      invariant copies == CopiesOf(MergedAll(datasets[..d], le, fails), outputDir)
    {
      ghost var before := MergedAll(datasets[..d], le, fails);
      MergedAllStep(datasets, d, le, fails);
      OutputsConcat(before, MergedDataset(datasets[d], le, fails, |before|), outputDir);
      var ds := datasets[d];
      if ds.labelsText.Some? {
        var labelsDict := ParseLabelsDict(ReadAllLines(ds.labelsText.value));
        var imageFiles := SortBy(MergeImagesOf(ds.files), le);
        imageCounter, mergedLabels, copies := MergeImages(imageFiles, labelsDict, fails, outputDir, imageCounter, mergedLabels, copies);
      }
    }
    assert datasets[..|datasets|] == datasets;
    mergedLabelsText := WriteAllLines(mergedLabels);
  }

  lemma MergedAllStep(datasets: seq<OcrSource>, d: nat, le: (string, string) -> bool, fails: string -> bool)
    requires d < |datasets|
    ensures MergedAll(datasets[..d + 1], le, fails)
         == MergedAll(datasets[..d], le, fails) + MergedDataset(datasets[d], le, fails, |MergedAll(datasets[..d], le, fails)|)
  {
    assert datasets[..d + 1][..d] == datasets[..d];
  }

  /** The loop that fills labelsDict from the lines of one labels.txt. */
  method ParseLabelsDict(lines: seq<string>) returns (labelsDict: map<string, string>)
    ensures labelsDict == LabelsDict(lines)
  {
    labelsDict := map[];
    for k := 0 to |lines|
      invariant labelsDict == LabelsDict(lines[..k])
    {
      assert Map(lines[..k + 1], ParseLabelLine)[..k] == Map(lines[..k], ParseLabelLine);
      var parts := ParseLabelLine(lines[k]);
      if parts.Some? {
        labelsDict := labelsDict[parts.value.0 := parts.value.1];
      }
    }
    assert lines[..|lines|] == lines;
  }
}
