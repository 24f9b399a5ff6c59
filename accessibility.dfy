/**
 * The accessibility layer that runs on every page: the heading-level
 * check, the wording of validation errors and field labels, the names
 * given to icon-only buttons, the one-open accordion that replaces the
 * booking steps on a small screen, collapsible card headers and the
 * `data-label` cells of responsive tables.
 *
 * Whether the screen is small (`matchMedia`) is a parameter of the
 * handlers that ask; the console warnings of the heading check are the
 * positions it reports.
 */
module Accessibility {
  import opened Text

  /*** Heading hierarchy ***/

  /** Heading `i` is more than one level deeper than the one before it (the first is compared with level 0). */
  predicate SkipsLevel(levels: seq<int>, i: int)
    requires 0 <= i < |levels|
  {
    levels[i] - (if i == 0 then 0 else levels[i - 1]) > 1
  }

  /**
   * checkHeadingHierarchy over the levels of the page's headings in
   * document order: it warns, in order, at exactly the headings that skip
   * a level; going back up any number of levels is never reported.
   */
  method CheckHeadingHierarchy(levels: seq<int>) returns (warned: seq<nat>)
    ensures forall i :: i in warned <==> 0 <= i < |levels| && SkipsLevel(levels, i)
    ensures forall a, b :: 0 <= a < b < |warned| ==> warned[a] < warned[b]
  {
    var lastLevel := 0;
    var k := 0;
    warned := [];
    while k < |levels|
      invariant 0 <= k <= |levels|
      invariant lastLevel == if k == 0 then 0 else levels[k - 1]
      invariant forall i :: i in warned <==> 0 <= i < k && SkipsLevel(levels, i)
      invariant forall a, b :: 0 <= a < b < |warned| ==> warned[a] < warned[b]
      invariant forall a :: 0 <= a < |warned| ==> warned[a] < k
    {
      if levels[k] - lastLevel > 1 {
        warned := warned + [k];
      }
      lastLevel := levels[k];
      k := k + 1;
    }
  }

  /** A page the check is silent about starts at level 1 at most and never climbs faster than one level per heading. */
  lemma {:induction false} NoWarningMeansNoGap(levels: seq<int>)
    requires forall i :: 0 <= i < |levels| ==> !SkipsLevel(levels, i)
    ensures forall i :: 0 <= i < |levels| ==> levels[i] <= i + 1
    decreases |levels|
  {
    if levels != [] {
      var p := levels[..|levels| - 1];
      forall i | 0 <= i < |p|
        ensures !SkipsLevel(p, i)
      {
        assert !SkipsLevel(levels, i);
      }
      NoWarningMeansNoGap(p);
      assert !SkipsLevel(levels, |levels| - 1);
    }
  }

  /*** Validation messages and field labels ***/

  /** The `validity` flags the messages distinguish. */
  datatype Problem = ValueMissing | TypeMismatch | TooShort | TooLong | RangeUnderflow | RangeOverflow | PatternMismatch

  /**
   * What the script reads of a form field. `labelText` is the text of the
   * `<label for=…>` naming the field, if there is one; `customMessage` is
   * `data-error-message` ("" when absent); `problems` holds the validity
   * flags that are set.
   */
  datatype Field = Field(
    id: string,
    name: string,
    placeholder: string,
    inputType: string,
    labelText: Option<string>,
    customMessage: string,
    problems: set<Problem>,
    minLength: int,
    maxLength: int,
    min: string,
    max: string,
    validationMessage: string)

  /**
   * getFieldLabel: the label's text without its first '*', trimmed; with
   * no label, the first non-empty of placeholder, name and id, else
   * "This field". A label wins even when what is left of it is empty.
   */
  function FieldLabel(f: Field): (r: string)
    ensures f.labelText.None? ==> r != []
    ensures f.labelText.None? && f.placeholder != [] ==> r == f.placeholder
    ensures f.labelText.None? && f.placeholder == [] && f.name != [] ==> r == f.name
    ensures f.labelText.None? && f.placeholder == [] && f.name == [] && f.id != [] ==> r == f.id
    ensures f.labelText.None? && f.placeholder == [] && f.name == [] && f.id == [] ==> r == "This field"
    ensures f.labelText.Some? && r != [] ==> !IsSpace(r[0]) && !IsSpace(r[|r| - 1])
  {
    match f.labelText
    case Some(text) =>
      TrimIsSlice(ReplaceFirst(text, "*", ""));
      Trim(ReplaceFirst(text, "*", ""))
    case None =>
      if f.placeholder != [] then f.placeholder
      else if f.name != [] then f.name
      else if f.id != [] then f.id
      else "This field"
  }

  /** Removing the first '*' from text whose first '*' follows `a` leaves `a` and what came after the '*'. */
  lemma {:induction false} ReplaceFirstStar(a: string, b: string)
    requires '*' !in a
    ensures ReplaceFirst(a + "*" + b, "*", "") == a + b
    decreases |a|
  {
    var s := a + "*" + b;
    if a == [] {
      assert s[..1] == "*" && s[1..] == b;
    } else {
      assert s[..1] != "*" by { assert s[0] == a[0]; }
      assert s[1..] == a[1..] + "*" + b;
      ReplaceFirstStar(a[1..], b);
    }
  }

  /** A label "Email *" names the field "Email": the required marker and the space before it go. */
  lemma LabelDropsRequiredMarker(f: Field, a: string, b: string)
    requires '*' !in a && f.labelText == Some(a + "*" + b)
    ensures FieldLabel(f) == Trim(a + b)
  {
    ReplaceFirstStar(a, b);
  }

  /** A label without '*' is only trimmed. */
  lemma LabelWithoutMarker(f: Field, text: string)
    requires '*' !in text && f.labelText == Some(text)
    ensures FieldLabel(f) == Trim(text)
  {
    assert !Contains(text, "*") by {
      forall k | 0 <= k <= |text| - 1
        ensures !OccursAt(text, "*", k)
      {
        assert text[k..k + 1] == [text[k]];
      }
    }
    ReplaceAbsent(text, "*", "");
  }

  /**
   * getErrorMessage: a custom message wins; then the first set flag, in
   * the order of the chain, picks its sentence; with no flag set the
   * browser's own message is used, or "<label> is invalid.".
   */
  function ErrorMessage(f: Field): (m: string)
    ensures m != []
    ensures f.customMessage != [] ==> m == f.customMessage
  {
    var fieldName := FieldLabel(f);
    if f.customMessage != [] then f.customMessage
    else if ValueMissing in f.problems then fieldName + " is required."
    else if TypeMismatch in f.problems then "Please enter a valid " + f.inputType + " in " + fieldName + "."
    else if TooShort in f.problems then fieldName + " should be at least " + ShowInt(f.minLength) + " characters."
    else if TooLong in f.problems then fieldName + " should be at most " + ShowInt(f.maxLength) + " characters."
    else if RangeUnderflow in f.problems then fieldName + " should be at least " + f.min + "."
    else if RangeOverflow in f.problems then fieldName + " should be at most " + f.max + "."
    else if PatternMismatch in f.problems then fieldName + " should match the required format."
    else if f.validationMessage != [] then f.validationMessage
    else fieldName + " is invalid."
  }

  /** The place of a flag in the order getErrorMessage looks at them. */
  function Rank(p: Problem): nat {
    match p
    case ValueMissing => 0
    case TypeMismatch => 1
    case TooShort => 2
    case TooLong => 3
    case RangeUnderflow => 4
    case RangeOverflow => 5
    case PatternMismatch => 6
  }

  /** `p` is set and no set flag comes before it. */
  predicate Reported(problems: set<Problem>, p: Problem) {
    p in problems && forall q :: q in problems ==> Rank(p) <= Rank(q)
  }

  /** The sentence for one flag, or the fallback when none is set. */
  function ProblemSentence(f: Field, p: Option<Problem>): string {
    var fieldName := FieldLabel(f);
    match p
    case Some(ValueMissing) => fieldName + " is required."
    case Some(TypeMismatch) => "Please enter a valid " + f.inputType + " in " + fieldName + "."
    case Some(TooShort) => fieldName + " should be at least " + ShowInt(f.minLength) + " characters."
    case Some(TooLong) => fieldName + " should be at most " + ShowInt(f.maxLength) + " characters."
    case Some(RangeUnderflow) => fieldName + " should be at least " + f.min + "."
    case Some(RangeOverflow) => fieldName + " should be at most " + f.max + "."
    case Some(PatternMismatch) => fieldName + " should match the required format."
    case None => if f.validationMessage != [] then f.validationMessage else fieldName + " is invalid."
  }

  /**
   * Without a custom message, the message is the sentence of the set flag
   * that comes first in the order, or the fallback when no flag is set.
   */
  lemma ErrorMessageFollowsRank(f: Field)
    requires f.customMessage == []
    ensures forall p :: Reported(f.problems, p) ==> ErrorMessage(f) == ProblemSentence(f, Some(p))
    ensures f.problems == {} ==> ErrorMessage(f) == ProblemSentence(f, None)
  {
    forall p | Reported(f.problems, p)
      ensures ErrorMessage(f) == ProblemSentence(f, Some(p))
    {
      assert Rank(p) <= 0 || ValueMissing !in f.problems;
      assert Rank(p) <= 1 || TypeMismatch !in f.problems;
      assert Rank(p) <= 2 || TooShort !in f.problems;
      assert Rank(p) <= 3 || TooLong !in f.problems;
      assert Rank(p) <= 4 || RangeUnderflow !in f.problems;
      assert Rank(p) <= 5 || RangeOverflow !in f.problems;
    }
  }

  /*** Names for icon-only buttons ***/

  predicate StartsWith(s: string, prefix: string) {
    |prefix| <= |s| && s[..|prefix|] == prefix
  }

  /** `classList.find(cls => cls.startsWith(prefix))`. */
  function FindWithPrefix(classes: seq<string>, prefix: string): (r: Option<string>)
    ensures r.Some? ==> StartsWith(r.value, prefix) && r.value in classes
    ensures r.Some? ==> exists i :: 0 <= i < |classes| && classes[i] == r.value &&
                                    forall j :: 0 <= j < i ==> !StartsWith(classes[j], prefix)
    ensures r.None? <==> forall c :: c in classes ==> !StartsWith(c, prefix)
  {
    if classes == [] then None
    else if StartsWith(classes[0], prefix) then Some(classes[0])
    else match FindWithPrefix(classes[1..], prefix)
      case None => None
      case Some(c) =>
        assert forall j :: 1 <= j <= |classes| - 1 ==> classes[j] == classes[1..][j - 1];
        Some(c)
  }

  /** `s.replace(/-/g, ' ')`. */
  function DashesToSpaces(s: string): (r: string)
    ensures |r| == |s| && '-' !in r
    ensures forall i :: 0 <= i < |s| ==> r[i] == if s[i] == '-' then ' ' else s[i]
  {
    if s == [] then []
    else [if s[0] == '-' then ' ' else s[0]] + DashesToSpaces(s[1..])
  }

  /**
   * What the script knows of a button: its text, its `aria-label` ("" when
   * absent) and the class list of the first `<i>` inside it whose class
   * attribute contains "fa-", if any.
   */
  datatype Button = Button(text: string, ariaLabel: string, icon: Option<seq<string>>)

  /**
   * The `aria-label` enhanceAriaSupport gives a button, None when it
   * leaves the button alone: a button with visible text or a label keeps
   * it; an icon names the button after its first `fa-` class; without an
   * icon the name is "Button".
   */
  function GivenLabel(b: Button): (r: Option<string>)
    ensures Trim(b.text) != [] || b.ariaLabel != [] ==> r.None?
    ensures Trim(b.text) == [] && b.ariaLabel == [] && b.icon.None? ==> r == Some("Button")
    ensures Trim(b.text) == [] && b.ariaLabel == [] && b.icon.Some? ==>
              match FindWithPrefix(b.icon.value, "fa-")
              case None => r.None?
              case Some(c) => r == Some(DashesToSpaces(c[3..]) + " button")
  {
    if Trim(b.text) != [] || b.ariaLabel != [] then None
    else match b.icon
      case None => Some("Button")
      case Some(classes) =>
        match FindWithPrefix(classes, "fa-")
        case None => None
        case Some(c) =>
          assert c == "fa-" + c[3..];
          assert ReplaceFirst(c, "fa-", "") == c[3..];
          Some(DashesToSpaces(ReplaceFirst(c, "fa-", "")) + " button")
  }

  /** `fa-sign-in` names the button "sign in button". */
  lemma IconNameExample()
    ensures GivenLabel(Button("", "", Some(["fas", "fa-sign-in"]))) == Some("sign in" + " button")
  {
    var classes := ["fas", "fa-sign-in"];
    assert "fas"[2] != "fa-"[2];
    assert classes[1..] == ["fa-sign-in"];
    assert FindWithPrefix(classes, "fa-") == Some("fa-sign-in");
    assert "fa-sign-in"[3..] == "sign-in";
    var d := DashesToSpaces("sign-in");
    assert d == "sign in";
    assert Trim("") == [];
  }

  /**
   * The icon selector matches "fa-" anywhere in the class attribute, the
   * name lookup only at the start of a class: such a button gets no name
   * and no warning.
   */
  lemma IconWithoutPrefixGetsNoLabel()
    ensures GivenLabel(Button("", "", Some(["sofa-icon"]))) == None
  {
    assert "sofa-icon"[0] != "fa-"[0];
  }

  /*** The mobile accordion ***/

  /**
   * The booking steps turned into an accordion on a small screen.
   * `titled[i]` says whether step i had a title and so got a header and a
   * content wrapper; `expanded[i]` is its header's `aria-expanded` and
   * `contentShown[i]` whether its wrapper is displayed.
   */
  class Accordion {
    const titled: seq<bool>
    const expanded: array<bool>
    const contentShown: array<bool>

    predicate Valid()
      reads this, expanded, contentShown
    {
      expanded.Length == |titled| && contentShown.Length == |titled| && expanded != contentShown &&
      (forall i :: 0 <= i < |titled| ==> expanded[i] == contentShown[i]) &&
      (forall i :: 0 <= i < |titled| && !titled[i] ==> !expanded[i])
    }

    /** At most one step is open. */
    predicate AtMostOneOpen()
      reads this, expanded
    {
      forall i, j :: 0 <= i < expanded.Length && 0 <= j < expanded.Length && expanded[i] && expanded[j] ==> i == j
    }

    /** convertToMobileAccordion: only the first step starts open, and only when it has a title. */
    constructor(titled: seq<bool>)
      ensures Valid() && AtMostOneOpen() && this.titled == titled
      ensures forall i :: 0 <= i < |titled| ==> (expanded[i] <==> i == 0 && titled[0])
    {
      this.titled := titled;
      expanded := new bool[|titled|](i requires 0 <= i < |titled| => i == 0 && titled[0]);
      contentShown := new bool[|titled|](i requires 0 <= i < |titled| => i == 0 && titled[0]);
    }

    /**
     * A click on the header of step `k`: every step is closed, then step
     * `k` is opened again if it was closed, so a click on the open step
     * closes the accordion.
     */
    method Click(k: nat)
      requires Valid() && k < |titled| && titled[k]
      modifies expanded, contentShown
      ensures Valid() && AtMostOneOpen()
      ensures expanded[k] == !old(expanded[k])
      ensures forall i :: 0 <= i < |titled| && i != k ==> !expanded[i]
    {
      var wasExpanded := expanded[k];
      var i := 0;
      while i < |titled|
        invariant 0 <= i <= |titled|
        invariant forall j :: 0 <= j < i ==> !expanded[j] && !contentShown[j]
        invariant forall j :: i <= j < |titled| ==> expanded[j] == old(expanded[j]) && contentShown[j] == old(contentShown[j])
      {
        if titled[i] {
          expanded[i] := false;
          contentShown[i] := false;
        }
        i := i + 1;
      }
      if !wasExpanded {
        expanded[k] := true;
        contentShown[k] := true;
      }
    }
  }

  /*** Collapsible card headers ***/

  /**
   * A `.card-header-collapsible` and the body of its card. `ariaExpanded`
   * is None until the script sets it; `bodyHidden` says whether the body
   * has `display: none`; `listening` whether the click handler is attached.
   */
  class CardHeader {
    var classes: set<string>
    var ariaExpanded: Option<bool>
    var bodyHidden: bool
    var listening: bool

    /** Once set up, the header's `collapsed` class and `aria-expanded` agree, and a collapsed card hides its body. */
    predicate Valid()
      reads this
    {
      listening ==> ariaExpanded.Some? && ("collapsed" in classes <==> !ariaExpanded.value) &&
                    (!ariaExpanded.value ==> bodyHidden)
    }

    constructor(classes: set<string>, bodyHidden: bool)
      ensures Valid() && this.classes == classes && this.bodyHidden == bodyHidden
      ensures ariaExpanded == None && !listening
    {
      this.classes, this.bodyHidden := classes, bodyHidden;
      ariaExpanded, listening := None, false;
    }

    /**
     * setupMobileCardHeaders for this header: on a small screen, and when
     * the card has a body, the header starts expanded unless it is
     * `collapsed`, a collapsed card's body is hidden, and the click
     * handler is attached.
     */
    method Setup(smallScreen: bool, hasBody: bool)
      requires !listening
      modifies this`ariaExpanded, this`bodyHidden, this`listening
      ensures Valid()
      ensures !(smallScreen && hasBody) ==>
                ariaExpanded == old(ariaExpanded) && bodyHidden == old(bodyHidden) && !listening
      ensures smallScreen && hasBody ==>
                listening && ariaExpanded == Some("collapsed" !in classes) &&
                bodyHidden == ("collapsed" in classes || old(bodyHidden))
    {
      if !smallScreen || !hasBody {
        return;
      }
      var initiallyExpanded := "collapsed" !in classes;
      ariaExpanded := Some(initiallyExpanded);
      if !initiallyExpanded {
        bodyHidden := true;
      }
      listening := true;
    }

    /** A click flips `aria-expanded`, the body's display and the `collapsed` class together. */
    method Click()
      requires Valid()
      modifies this`ariaExpanded, this`bodyHidden, this`classes
      ensures Valid()
      ensures !listening ==> ariaExpanded == old(ariaExpanded) && bodyHidden == old(bodyHidden) && classes == old(classes)
      ensures listening ==> ariaExpanded == Some(!old(ariaExpanded).value) && bodyHidden == !ariaExpanded.value
      ensures classes - {"collapsed"} == old(classes) - {"collapsed"}
    {
      if !listening {
        return;
      }
      var isExpanded := ariaExpanded.value;
      ariaExpanded := Some(!isExpanded);
      bodyHidden := isExpanded;
      if isExpanded {
        classes := classes + {"collapsed"};
      } else {
        classes := classes - {"collapsed"};
      }
    }
  }

  /*** Responsive tables ***/

  /**
   * A table: its classes, whether an ancestor has `table-responsive`, the
   * text of its header cells, and the `data-label` of every body cell,
   * row by row (None when absent).
   */
  class ResponsiveTable {
    var classes: set<string>
    const insideResponsive: bool
    const headerTexts: seq<string>
    const cellLabels: array<seq<Option<string>>>

    constructor(classes: set<string>, insideResponsive: bool, headerTexts: seq<string>, rows: seq<seq<Option<string>>>)
      ensures this.classes == classes && this.insideResponsive == insideResponsive
      ensures this.headerTexts == headerTexts && cellLabels[..] == rows
    {
      this.classes, this.insideResponsive, this.headerTexts := classes, insideResponsive, headerTexts;
      cellLabels := new seq<Option<string>>[|rows|](i requires 0 <= i < |rows| => rows[i]);
    }

    /**
     * The labelling of one row: cell i gets the trimmed text of header i
     * when there is one; cells past the last header keep their label.
     */
    static method LabelRow(row: seq<Option<string>>, headers: seq<string>) returns (r: seq<Option<string>>)
      ensures |r| == |row|
      ensures forall i :: 0 <= i < |row| ==> r[i] == if i < |headers| then Some(Trim(headers[i])) else row[i]
    {
      r := row;
      var i := 0;
      while i < |row|
        invariant 0 <= i <= |row| && |r| == |row|
        invariant forall j :: 0 <= j < i ==> r[j] == if j < |headers| then Some(Trim(headers[j])) else row[j]
        invariant forall j :: i <= j < |row| ==> r[j] == row[j]
      {
        if i < |headers| {
          r := r[i := Some(Trim(headers[i]))];
        }
        i := i + 1;
      }
    }

    /**
     * makeTablesResponsive for this table: a table that is already a card
     * table, or sits in (or is) a `table-responsive` element, is left
     * alone; any other gets the card class and its cells are labelled.
     */
    method MakeResponsive()
      modifies this`classes, cellLabels
      ensures "table-responsive-card" in old(classes) || "table-responsive" in old(classes) || insideResponsive ==>
                classes == old(classes) && cellLabels[..] == old(cellLabels[..])
      ensures !("table-responsive-card" in old(classes) || "table-responsive" in old(classes) || insideResponsive) ==>
                classes == old(classes) + {"table-responsive-card"} &&
                forall row :: 0 <= row < cellLabels.Length ==>
                  |cellLabels[row]| == |old(cellLabels[row])| &&
                  forall i :: 0 <= i < |cellLabels[row]| ==>
                    cellLabels[row][i] == if i < |headerTexts| then Some(Trim(headerTexts[i])) else old(cellLabels[row][i])
    {
      if "table-responsive-card" in classes || "table-responsive" in classes || insideResponsive {
        return;
      }
      classes := classes + {"table-responsive-card"};
      var row := 0;
      while row < cellLabels.Length
        invariant 0 <= row <= cellLabels.Length
        invariant forall k :: 0 <= k < row ==>
                    |cellLabels[k]| == |old(cellLabels[k])| &&
                    forall i :: 0 <= i < |cellLabels[k]| ==>
                      cellLabels[k][i] == if i < |headerTexts| then Some(Trim(headerTexts[i])) else old(cellLabels[k][i])
        invariant forall k :: row <= k < cellLabels.Length ==> cellLabels[k] == old(cellLabels[k])
        modifies cellLabels
      {
        var labelled := LabelRow(cellLabels[row], headerTexts);
        cellLabels[row] := labelled;
        row := row + 1;
      }
    }
  }
}
