/** The authoring screen (src/pages/CreateQuiz.jsx): a mutable draft quiz with
    a question being composed, its checks and what it sends to the store. */
module CreateQuiz {
  import opened QuizModel
  import opened Decimal
  import opened Text
  import PublicQuiz

  const EmptyQuestionError := "Question cannot be empty"
  const BlankOptionError := "All options must be filled"
  const TitleRequiredError := "Quiz title is required"
  const NoQuestionsError := "At least one question is required"

  /** The options of a fresh question: four empty slots. */
  const EmptyOptions: seq<string> := ["", "", "", ""]

  /** What `handleSave` hands to `createQuiz`. */
  datatype QuizPayload = QuizPayload(
    title: string,
    description: string,
    timeLimit: int,
    questions: seq<Question>,
    status: Status)

  /** `options.some(option => !option.trim())`: some option trims to the
      empty string, which is exactly when the filter of `addQuestion` would
      drop one. */
  predicate AnyBlank(options: seq<string>)
    ensures AnyBlank(options) <==> |KeepNonBlank(options)| < |options|
  {
    BlankIffDropped(options);
    exists i | 0 <= i < |options| :: IsBlank(options[i])
  }

  /** The checks of `addQuestion`, in order: the question text, then the options. */
  function DraftError(text: string, options: seq<string>): (err: Option<string>)
    ensures err.None? <==> !IsBlank(text) && forall i :: 0 <= i < |options| ==> !IsBlank(options[i])
    ensures IsBlank(text) ==> err == Some(EmptyQuestionError)
    ensures !IsBlank(text) && AnyBlank(options) ==> err == Some(BlankOptionError)
  {
    if IsBlank(text) then Some(EmptyQuestionError)
    else if AnyBlank(options) then Some(BlankOptionError)
    else None
  }

  /** `options.filter(option => option.trim() !== '')`: every non-blank option
      is kept as many times as it occurs, and nothing else. */
  function KeepNonBlank(options: seq<string>): (kept: seq<string>)
    ensures |kept| <= |options|
    ensures forall i :: 0 <= i < |kept| ==> !IsBlank(kept[i])
    ensures forall o :: multiset(kept)[o] == if IsBlank(o) then 0 else multiset(options)[o]
  {
    if options == [] then []
    else
      assert options == [options[0]] + options[1..];
      if IsBlank(options[0]) then KeepNonBlank(options[1..])
      else [options[0]] + KeepNonBlank(options[1..])
  }

  /** The filter shortens the options exactly when one of them is blank. */
  lemma {:induction false} BlankIffDropped(options: seq<string>)
    ensures (exists i | 0 <= i < |options| :: IsBlank(options[i])) <==> |KeepNonBlank(options)| < |options|
  {
    if options != [] {
      BlankIffDropped(options[1..]);
      if exists i | 0 <= i < |options[1..]| :: IsBlank(options[1..][i]) {
        var i :| 0 <= i < |options[1..]| && IsBlank(options[1..][i]);
        assert IsBlank(options[i + 1]);
      }
      if exists i | 0 <= i < |options| :: IsBlank(options[i]) {
        var i :| 0 <= i < |options| && IsBlank(options[i]);
        if i > 0 {
          assert IsBlank(options[1..][i - 1]);
        }
      }
    }
  }

  /** When no option is blank the filter keeps every option, in order. */
  lemma {:induction false} KeepNonBlankKeepsAll(options: seq<string>)
    requires forall i :: 0 <= i < |options| ==> !IsBlank(options[i])
    ensures KeepNonBlank(options) == options
  {
    if options != [] {
      KeepNonBlankKeepsAll(options[1..]);
    }
  }

  /** The checks of `handleSave` and `handlePreview`: the title first, then
      that there is at least one question. */
  function SaveError(title: string, questions: seq<Question>): (err: Option<string>)
    ensures err.None? <==> !IsBlank(title) && |questions| > 0
    ensures IsBlank(title) ==> err == Some(TitleRequiredError)
    ensures !IsBlank(title) && questions == [] ==> err == Some(NoQuestionsError)
  {
    if IsBlank(title) then Some(TitleRequiredError)
    else if |questions| == 0 then Some(NoQuestionsError)
    else None
  }

  /** `parseInt(text) || 0`: the parsed number, or 0 when parsing gives NaN
      (NaN and 0 are the falsy numbers). */
  function CoerceTimeLimit(text: string): (minutes: int)
    ensures ParseInt(text).Some? ==> minutes == ParseInt(text).value
    ensures ParseInt(text).None? ==> minutes == 0
  {
    match ParseInt(text)
    case Some(n) => n
    case None => 0
  }

  /** An empty or non-numeric time-limit field is saved as 0. */
  lemma CoerceTimeLimitWithoutDigits(text: string)
    requires forall i :: 0 <= i < |text| ==> !IsDigit(text[i])
    ensures CoerceTimeLimit(text) == 0
  {
    ParseIntWithoutDigits(text);
  }

  /** A field holding the decimal form of a number is saved as that number. */
  lemma CoerceTimeLimitOfNumber(n: nat)
    ensures CoerceTimeLimit(NatToString(n)) == n
  {
    ParseIntNatToString(n);
  }

  /** A negative number typed into the field is saved as it is: nothing
      clamps the limit at 0. */
  lemma CoerceTimeLimitKeepsNegative(n: nat)
    ensures CoerceTimeLimit("-" + NatToString(n)) == -(n as int)
  {
    var digits := NatToString(n);
    var text := "-" + digits;
    assert TrimStart(text) == text;
    assert text[1..] == digits;
    AllDigitsAreLeading(digits);
    ValueOfNatToString(n);
  }

  /** End to end: a quiz published with its time-limit field left empty (or
      holding no digits) is stored with limit 0, and the taking screen then
      submits it as soon as it has loaded. */
  lemma EmptyLimitFieldSubmitsOnLoad(text: string)
    requires forall i :: 0 <= i < |text| ==> !IsDigit(text[i])
    ensures PublicQuiz.TimerStepAsWritten(CoerceTimeLimit(text) * 60, true, false) == PublicQuiz.AutoSubmit
  {
    CoerceTimeLimitWithoutDigits(text);
  }

  /** Where `splice(index, 1)` starts: a negative index counts from the end
      (and stops at 0), a large one stops at the length. */
  function SpliceStart(length: nat, index: int): (k: nat)
    ensures k <= length
    ensures 0 <= index <= length ==> k == index
    ensures index > length ==> k == length
    ensures index < 0 ==> k == if length + index < 0 then 0 else length + index
  {
    if index < 0 then (if length + index < 0 then 0 else length + index)
    else if index > length then length
    else index
  }

  /** The copy left by `splice(index, 1)`: the element at the start position
      is removed and the others keep their order; nothing is removed when the
      start is at the end. */
  function SpliceOne<T>(s: seq<T>, index: int): (r: seq<T>)
    ensures var k := SpliceStart(|s|, index);
      && (k < |s| ==> (|r| == |s| - 1
            && (forall j :: 0 <= j < k ==> r[j] == s[j])
            && (forall j :: k <= j < |r| ==> r[j] == s[j + 1])))
      && (k == |s| ==> r == s)
  {
    var k := SpliceStart(|s|, index);
    if k < |s| then s[..k] + s[k + 1..] else s
  }

  /** Removing at a valid index takes out exactly that element. */
  lemma SpliceOneRemovesOne<T>(s: seq<T>, index: int)
    requires 0 <= index < |s|
    ensures SpliceOne(s, index) == s[..index] + s[index + 1..]
    ensures multiset(SpliceOne(s, index)) + multiset{s[index]} == multiset(s)
  {
    assert s == s[..index] + [s[index]] + s[index + 1..];
  }

  /** The authoring screen's state: the quiz being built and the question
      being composed. */
  class QuizBuilder {
    var title: string
    var description: string
    var timeLimitText: string
    var questions: seq<Question>
    var draftText: string
    var draftOptions: seq<string>
    var draftCorrect: int
    var error: string
    var loading: bool

    /** The question being composed always has the four option slots the
        screen renders. */
    ghost predicate Valid()
      reads this`draftOptions
    {
      |draftOptions| == |EmptyOptions|
    }

    /** The screen's initial state. */
    constructor ()
      ensures title == "" && description == "" && timeLimitText == "" && questions == []
      ensures draftText == "" && draftOptions == EmptyOptions && draftCorrect == 0
      ensures error == "" && !loading
      ensures Valid()
    {
      title, description, timeLimitText, questions := "", "", "", [];
      draftText, draftOptions, draftCorrect := "", EmptyOptions, 0;
      error, loading := "", false;
    }

    /** The title field's `onChange`. */
    method SetTitle(value: string)
      modifies this`title
      ensures title == value
    {
      title := value;
    }

    /** The description field's `onChange`. */
    method SetDescription(value: string)
      modifies this`description
      ensures description == value
    {
      description := value;
    }

    /** The time-limit field's `onChange`: the raw text is kept until saving. */
    method SetTimeLimitText(value: string)
      modifies this`timeLimitText
      ensures timeLimitText == value
    {
      timeLimitText := value;
    }

    /** The question field's `onChange`. */
    method SetDraftText(value: string)
      modifies this`draftText
      ensures draftText == value
    {
      draftText := value;
    }

    /** The radio button of option `index`: marks it as the key. */
    method SelectCorrectOption(index: int)
      modifies this`draftCorrect
      ensures draftCorrect == index
    {
      draftCorrect := index;
    }

    /** `handleOptionChange`: replaces option `index` and nothing else. */
    method ChangeOption(index: int, value: string)
      requires Valid() && 0 <= index < |EmptyOptions|
      modifies this`draftOptions
      ensures |draftOptions| == |old(draftOptions)|
      ensures draftOptions[index] == value
      ensures forall j :: 0 <= j < |draftOptions| && j != index ==> draftOptions[j] == old(draftOptions)[j]
      ensures Valid()
    {
      draftOptions := draftOptions[index := value];
    }

    /** `addQuestion`: a draft with blank text or a blank option is refused with
        the matching message and nothing else changes; otherwise it is
        appended as it stands, the draft is reset and the message cleared. */
    method AddQuestion()
      modifies this`questions, this`draftText, this`draftOptions, this`draftCorrect, this`error
      ensures var err := DraftError(old(draftText), old(draftOptions));
        && (err.Some? ==>
              && error == err.value
              && questions == old(questions)
              && draftText == old(draftText) && draftOptions == old(draftOptions)
              && draftCorrect == old(draftCorrect))
        && (err.None? ==>
              && questions == old(questions) + [Question(old(draftText), old(draftOptions), old(draftCorrect))]
              && draftText == "" && draftOptions == EmptyOptions && draftCorrect == 0
              && error == "")
      ensures old(Valid()) ==> Valid()
    {
      if IsBlank(draftText) {
        error := EmptyQuestionError;
        return;
      }
      if AnyBlank(draftOptions) {
        error := BlankOptionError;
        return;
      }
      KeepNonBlankKeepsAll(draftOptions);
      var newQuestion := Question(draftText, KeepNonBlank(draftOptions), draftCorrect);
      questions := questions + [newQuestion];
      draftText, draftOptions, draftCorrect := "", EmptyOptions, 0;
      error := "";
    }

    /** `removeQuestion`: the list after `splice(index, 1)`. */
    method RemoveQuestion(index: int)
      modifies this`questions
      ensures questions == SpliceOne(old(questions), index)
      ensures 0 <= index < |old(questions)| ==> |questions| == |old(questions)| - 1
      ensures index >= |old(questions)| ==> questions == old(questions)
    {
      questions := SpliceOne(questions, index);
    }

    /** `handleSave`: a failed check sets its message and sends nothing;
        otherwise the screen starts loading, clears the message and sends the
        quiz with the coerced time limit and the requested status. */
    method Save(status: Status) returns (request: Option<QuizPayload>)
      modifies this`error, this`loading
      ensures var err := SaveError(title, questions);
        && (err.Some? ==> request == None && error == err.value && loading == old(loading))
        && (err.None? ==>
              && request == Some(QuizPayload(title, description, CoerceTimeLimit(timeLimitText), questions, status))
              && loading && error == "")
    {
      if IsBlank(title) {
        error := TitleRequiredError;
        return None;
      }
      if |questions| == 0 {
        error := NoQuestionsError;
        return None;
      }
      loading := true;
      error := "";
      request := Some(QuizPayload(title, description, CoerceTimeLimit(timeLimitText), questions, status));
    }

    /** The store refused the quiz: show its message and stop loading. */
    method SaveFailed(message: string)
      modifies this`error, this`loading
      ensures error == message && !loading
    {
      error := message;
      loading := false;
    }

    /** `handlePreview`: the same checks as saving; on success it reports how
        many questions are ready and leaves the message as it was. */
    method Preview() returns (ready: Option<nat>)
      modifies this`error
      ensures var err := SaveError(title, questions);
        && (err.Some? ==> ready == None && error == err.value)
        && (err.None? ==> ready == Some(|questions|) && error == old(error))
    {
      if IsBlank(title) {
        error := TitleRequiredError;
        return None;
      }
      if |questions| == 0 {
        error := NoQuestionsError;
        return None;
      }
      ready := Some(|questions|);
    }
  }
}
