/** Label formatting: status and study-type codes such as `NOT_YET_RECRUITING`
    shown as `Not Yet Recruiting`, and the colour pairs of their badges. */
module Format {
  import opened Text

  /** `word.charAt(0).toUpperCase() + word.slice(1)`. */
  function Capitalize(word: string): string
  {
    if word == "" then "" else [UpperChar(word[0])] + word[1..]
  }

  /** `words.map(Capitalize)`. */
  function CapitalizeAll(words: seq<string>): (r: seq<string>)
    ensures |r| == |words|
    ensures forall k :: 0 <= k < |words| ==> r[k] == Capitalize(words[k])
  {
    if words == [] then [] else [Capitalize(words[0])] + CapitalizeAll(words[1..])
  }

  /** The character the formatter puts at position `i` of `code`: a space for
      an underscore, the upper-case letter at the start of a word, the
      lower-case letter elsewhere. */
  function LabelCharAt(code: string, i: nat): char
    requires i < |code|
  {
    if code[i] == '_' then ' '
    else if i == 0 || code[i - 1] == '_' then UpperChar(LowerChar(code[i]))
    else LowerChar(code[i])
  }

  /** `formatStatus(status)`: lower-case, split on '_', capitalise each piece,
      join with ' '. The label is as long as the code, has a space wherever
      the code has an underscore, and holds no underscore; a space the code
      already holds stays a space, so for a code without spaces the label's
      spaces are exactly its underscores. */
  function FormatStatus(status: string): (shown: string)
    ensures |shown| == |status|
    ensures forall i :: 0 <= i < |status| ==> shown[i] == LabelCharAt(status, i)
    ensures '_' !in shown
    ensures ' ' !in status ==>
      forall i :: 0 <= i < |status| ==> (shown[i] == ' ' <==> status[i] == '_')
  {
    JoinCapitalizedSplit(Lower(status));
    TitleWordsOfLower(status);
    Join(CapitalizeAll(Split(Lower(status), '_')), ' ')
  }

  /** `formatStudyType(type)`: the same transformation as `formatStatus`. */
  function FormatStudyType(studyType: string): (shown: string)
    ensures shown == FormatStatus(studyType)
  {
    Join(CapitalizeAll(Split(Lower(studyType), '_')), ' ')
  }

  /** A character-by-character reading of the transformation on already
      lower-cased text; `start` says whether the first character begins a word. */
  ghost function TitleWords(text: string, start: bool): string
  {
    if text == [] then []
    else if text[0] == '_' then [' '] + TitleWords(text[1..], true)
    else [if start then UpperChar(text[0]) else text[0]] + TitleWords(text[1..], false)
  }

  /** What `TitleWords` puts at position `i`. */
  lemma {:induction false} TitleWordsAt(text: string, start: bool, i: nat)
    requires i < |text|
    ensures |TitleWords(text, start)| == |text|
    ensures TitleWords(text, start)[i] ==
      if text[i] == '_' then ' '
      else if (i == 0 && start) || (i > 0 && text[i - 1] == '_') then UpperChar(text[i])
      else text[i]
  {
    if i > 0 {
      TitleWordsAt(text[1..], text[0] == '_', i - 1);
    } else if |text| > 1 {
      TitleWordsAt(text[1..], text[0] == '_', 0);
    }
  }

  /** `TitleWords` of the lower-cased code, position by position. */
  lemma TitleWordsOfLower(code: string)
    ensures |TitleWords(Lower(code), true)| == |code|
    ensures forall i :: 0 <= i < |code| ==> TitleWords(Lower(code), true)[i] == LabelCharAt(code, i)
  {
    var lowered := Lower(code);
    if code == [] {
    } else {
      TitleWordsAt(lowered, true, 0);
    }
    forall i | 0 <= i < |code| ensures TitleWords(lowered, true)[i] == LabelCharAt(code, i) {
      TitleWordsAt(lowered, true, i);
    }
  }

  /** The split/capitalise/join chain is `TitleWords` on the same text; the
      second statement covers a first piece that is not capitalised. */
  lemma {:induction false} JoinCapitalizedSplit(text: string)
    ensures Join(CapitalizeAll(Split(text, '_')), ' ') == TitleWords(text, true)
    ensures var parts := Split(text, '_');
      Join([parts[0]] + CapitalizeAll(parts[1..]), ' ') == TitleWords(text, false)
  {
    if text != [] {
      JoinCapitalizedSplit(text[1..]);
      if text[0] == '_' {
        SplitAtSeparator(text);
      } else {
        SplitAtLetter(text);
      }
    }
  }

  /** The step of `JoinCapitalizedSplit` for a leading underscore: an empty
      first piece, joined to the rest by a space. */
  lemma SplitAtSeparator(text: string)
    requires text != [] && text[0] == '_'
    requires var rest := Split(text[1..], '_');
      Join(CapitalizeAll(rest), ' ') == TitleWords(text[1..], true)
    ensures Join(CapitalizeAll(Split(text, '_')), ' ') == TitleWords(text, true)
    ensures var parts := Split(text, '_');
      Join([parts[0]] + CapitalizeAll(parts[1..]), ' ') == TitleWords(text, false)
  {
    var rest := Split(text[1..], '_');
    var parts := Split(text, '_');
    assert parts == [""] + rest;
    assert parts[1..] == rest;
    var capped := [""] + CapitalizeAll(rest);
    assert CapitalizeAll(parts) == capped;
    assert [parts[0]] + CapitalizeAll(parts[1..]) == capped;
    assert capped[1..] == CapitalizeAll(rest);
    assert Join(capped, ' ') == [' '] + Join(CapitalizeAll(rest), ' ');
  }

  /** The step of `JoinCapitalizedSplit` for a leading letter: it starts the
      first piece, which is capitalised or not as the piece requires. */
  lemma SplitAtLetter(text: string)
    requires text != [] && text[0] != '_'
    requires var rest := Split(text[1..], '_');
      Join([rest[0]] + CapitalizeAll(rest[1..]), ' ') == TitleWords(text[1..], false)
    ensures Join(CapitalizeAll(Split(text, '_')), ' ') == TitleWords(text, true)
    ensures var parts := Split(text, '_');
      Join([parts[0]] + CapitalizeAll(parts[1..]), ' ') == TitleWords(text, false)
  {
    var rest := Split(text[1..], '_');
    var parts := Split(text, '_');
    var tail := CapitalizeAll(rest[1..]);
    assert parts == [[text[0]] + rest[0]] + rest[1..];
    assert parts[1..] == rest[1..];
    assert CapitalizeAll(parts) == [[UpperChar(text[0])] + rest[0]] + tail;
    JoinConsFirst(UpperChar(text[0]), rest[0], tail, ' ');
    JoinConsFirst(text[0], rest[0], tail, ' ');
  }

  /** A badge's background and text classes. */
  datatype Palette = Palette(background: string, text: string)

  const Gray := Palette("bg-gray-100", "text-gray-800")
  const Yellow := Palette("bg-yellow-100", "text-yellow-800")

  /** The statuses that get a colour of their own (`NOT_YET_RECRUITING` is
      listed in the switch but gets the same gray as the default). */
  const ColouredStatuses: set<string> := {
    "COMPLETED", "ACTIVE_NOT_RECRUITING", "RECRUITING", "ENROLLING_BY_INVITATION",
    "WITHDRAWN", "WITHHELD", "AVAILABLE", "TERMINATED",
    "TEMPORARILY_NOT_AVAILABLE", "SUSPENDED"}

  /** `getStatusColor(status)`, switching on the upper-cased status. */
  function StatusColor(status: string): (p: Palette)
    ensures p == Yellow <==> Upper(status) in {"TEMPORARILY_NOT_AVAILABLE", "SUSPENDED"}
    ensures p == Gray <==> Upper(status) !in ColouredStatuses
  {
    StatusSwitch(Upper(status))
  }

  /** The `switch` of `getStatusColor`, on an already upper-cased status. */
  function StatusSwitch(code: string): Palette
  {
    match code
    case "COMPLETED" => Palette("bg-green-100", "text-green-800")
    case "NOT_YET_RECRUITING" => Palette("bg-gray-100", "text-gray-800")
    case "ACTIVE_NOT_RECRUITING" => Palette("bg-blue-100", "text-blue-800")
    case "RECRUITING" => Palette("bg-indigo-100", "text-indigo-800")
    case "ENROLLING_BY_INVITATION" => Palette("bg-purple-100", "text-purple-800")
    case "WITHDRAWN" => Palette("bg-red-100", "text-red-800")
    case "WITHHELD" => Palette("bg-orange-100", "text-orange-800")
    case "AVAILABLE" => Palette("bg-teal-100", "text-teal-800")
    case "TERMINATED" => Palette("bg-rose-100", "text-rose-800")
    case "TEMPORARILY_NOT_AVAILABLE" => Palette("bg-yellow-100", "text-yellow-800")
    case "SUSPENDED" => Palette("bg-yellow-100", "text-yellow-800")
    case _ => Palette("bg-gray-100", "text-gray-800")
  }

  /** The three study types with a colour of their own. */
  const ColouredStudyTypes: set<string> := {"INTERVENTIONAL", "OBSERVATIONAL", "EXPANDED_ACCESS"}

  /** `getStudyTypeColor(type)`, switching on the upper-cased type: the three
      listed types get pairwise different colours, everything else gray. */
  function StudyTypeColor(studyType: string): (p: Palette)
    ensures p == Gray <==> Upper(studyType) !in ColouredStudyTypes
  {
    StudyTypeSwitch(Upper(studyType))
  }

  /** The `switch` of `getStudyTypeColor`, on an already upper-cased type. */
  function StudyTypeSwitch(code: string): Palette
  {
    match code
    case "INTERVENTIONAL" => Palette("bg-sky-100", "text-sky-800")
    case "OBSERVATIONAL" => Palette("bg-emerald-100", "text-emerald-800")
    case "EXPANDED_ACCESS" => Palette("bg-violet-100", "text-violet-800")
    case _ => Palette("bg-gray-100", "text-gray-800")
  }

  /** Different coloured study types never share a colour. */
  lemma StudyTypeColoursDistinct(a: string, b: string)
    requires Upper(a) in ColouredStudyTypes && Upper(b) in ColouredStudyTypes
    requires Upper(a) != Upper(b)
    ensures StudyTypeColor(a) != StudyTypeColor(b)
  {
  }

  /** Both colour lookups ignore the case of their argument. */
  lemma {:induction false} ColoursIgnoreCase(code: string)
    ensures StatusColor(Lower(code)) == StatusColor(code)
    ensures StudyTypeColor(Lower(code)) == StudyTypeColor(code)
  {
    CaseFolding(code);
  }
}
