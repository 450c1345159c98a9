/** `buildAnswerPermissionResult`: the tool input that an accepted answer sends back. */
module AnswerResult {
  import opened Decimal
  import opened Wrappers
  import opened PendingQuestions

  /** The answers by question text, and the last free text if any. */
  datatype UpdatedInput = UpdatedInput(answers: map<string, string>, response: Option<string>)

  function QuestionsOf(input: Input): seq<Option<string>> {
    if input.questions.None? then [] else input.questions.value
  }

  /** The text that answer `i` is filed under. */
  function QuestionText(input: Input, i: nat): string {
    var questions := QuestionsOf(input);
    if i < |questions| && questions[i].Some? then questions[i].value else "question_" + Digits(i)
  }

  function AnswerText(answer: Answer): string {
    match answer
    case Choice(widgetType) => widgetType
    case FreeText(text) => text
  }

  /** The last free text among the answers. */
  function LastFreeText(answers: seq<Answer>): Option<string> {
    if answers == [] then None
    else match answers[|answers| - 1]
         case FreeText(text) => Some(text)
         case Choice(_) => LastFreeText(answers[..|answers| - 1])
  }

  function Texts(input: Input, n: nat): (texts: seq<string>)
    ensures |texts| == n
  {
    seq(n, i requires 0 <= i < n => QuestionText(input, i))
  }

  function Values(answers: seq<Answer>): (values: seq<string>)
    ensures |values| == |answers|
  {
    seq(|answers|, i requires 0 <= i < |answers| => AnswerText(answers[i]))
  }

  /** The one property name of a plain object whose assignment is a setter's: a string given to it is
    * dropped. */
  const PROTO := "__proto__"

  /** `answerMap[text] = value`, on a plain object. */
  function Assigned(filed: map<string, string>, text: string, value: string): map<string, string> {
    if text == PROTO then filed else filed[text := value]
  }

  /** Each value filed under its text, in order. */
  function Filed(texts: seq<string>, values: seq<string>): map<string, string>
    requires |texts| == |values|
  {
    if texts == [] then map[]
    else Assigned(Filed(texts[..|texts| - 1], values[..|texts| - 1]), texts[|texts| - 1], values[|texts| - 1])
  }

  /** A text keeps the last value filed under it. */
  lemma {:induction false} LastWins(texts: seq<string>, values: seq<string>, i: nat) returns (j: nat)
    requires |texts| == |values| && i < |texts| && texts[i] != PROTO
    ensures i <= j < |texts| && texts[j] == texts[i] && (forall k :: j < k < |texts| ==> texts[k] != texts[i])
    ensures texts[i] in Filed(texts, values) && Filed(texts, values)[texts[i]] == values[j]
  {
    var n := |texts| - 1;
    if texts[n] == texts[i] {
      j := n;
    } else {
      j := LastWins(texts[..n], values[..n], i);
    }
  }

  lemma {:induction false} FiledTexts(texts: seq<string>, values: seq<string>, t: string)
    requires |texts| == |values|
    ensures t in Filed(texts, values) <==> t in texts && t != PROTO
  {
    if texts != [] {
      var n := |texts| - 1;
      FiledTexts(texts[..n], values[..n], t);
      assert texts == texts[..n] + [texts[n]];
    }
  }

  lemma FiledNext(input: Input, answers: seq<Answer>, i: nat)
    requires i < |answers|
    ensures Filed(Texts(input, i + 1), Values(answers[..i + 1]))
         == Assigned(Filed(Texts(input, i), Values(answers[..i])), QuestionText(input, i), AnswerText(answers[i]))
    ensures LastFreeText(answers[..i + 1])
         == if answers[i].FreeText? then Some(answers[i].text) else LastFreeText(answers[..i])
  {
    assert Texts(input, i + 1)[..i] == Texts(input, i);
    assert Values(answers[..i + 1])[..i] == Values(answers[..i]);
    assert answers[..i + 1][..i] == answers[..i];
  }

  method BuildAnswerPermissionResult(input: Input, answers: seq<Answer>) returns (updated: UpdatedInput)
    ensures updated.answers == Filed(Texts(input, |answers|), Values(answers))
    ensures updated.response == LastFreeText(answers)
  {
    var answerMap: map<string, string> := map[];
    var freeTextResponse: Option<string> := None;
    for i := 0 to |answers|
      invariant answerMap == Filed(Texts(input, i), Values(answers[..i]))
      invariant freeTextResponse == LastFreeText(answers[..i])
    {
      FiledNext(input, answers, i);
      if QuestionText(input, i) != PROTO {
        answerMap := answerMap[QuestionText(input, i) := AnswerText(answers[i])];
      }
      if answers[i].FreeText? {
        freeTextResponse := Some(answers[i].text);
      }
    }
    assert answers[..|answers|] == answers;
    updated := UpdatedInput(answerMap, freeTextResponse);
  }

  ghost predicate AllKept(texts: seq<string>, values: seq<string>, filed: map<string, string>)
    requires |texts| == |values|
  {
    forall i :: 0 <= i < |texts| ==> texts[i] in filed && filed[texts[i]] == values[i]
  }

  ghost predicate SameTextSameValue(texts: seq<string>, values: seq<string>)
    requires |texts| == |values|
  {
    forall i, j :: 0 <= i < j < |texts| && texts[i] == texts[j] ==> values[i] == values[j]
  }

  /** Every answer reaches the tool exactly when no two questions with one text have different
    * answers, and no question is the name that is not an ordinary property. */
  lemma EveryAnswerKept(texts: seq<string>, values: seq<string>)
    requires |texts| == |values|
    ensures AllKept(texts, values, Filed(texts, values)) <==> SameTextSameValue(texts, values) && PROTO !in texts
  {
    if SameTextSameValue(texts, values) && PROTO !in texts {
      forall i | 0 <= i < |texts|
        ensures texts[i] in Filed(texts, values) && Filed(texts, values)[texts[i]] == values[i]
      {
        assert texts[i] in texts;
        var j := LastWins(texts, values, i);
      }
    }
    if PROTO in texts {
      FiledTexts(texts, values, PROTO);
      var i :| 0 <= i < |texts| && texts[i] == PROTO;
      assert texts[i] !in Filed(texts, values);
    }
  }

  /** One question, one answer, and the answer is lost. */
  lemma ProtoAnswerIsLost(value: string)
    ensures SameTextSameValue([PROTO], [value]) && Filed([PROTO], [value]) == map[]
    ensures !AllKept([PROTO], [value], Filed([PROTO], [value]))
  {
    assert [PROTO][0] == PROTO && [PROTO][..0] == [];
    EveryAnswerKept([PROTO], [value]);
    assert PROTO in [PROTO];
  }

  /** Two questions with one text and different answers, and the first answer is lost. */
  lemma SameTextLosesAnswer(text: string, first: string, second: string)
    requires first != second
    ensures !AllKept([text, text], [first, second], Filed([text, text], [first, second]))
  {
    var texts, values := [text, text], [first, second];
    assert texts[0] == texts[1] && values[0] != values[1];
    EveryAnswerKept(texts, values);
  }

  /** The text of question `i`, or its name by number when the question or its text is missing. */
  predicate Asks(input: Input, i: nat, text: string) {
    if input.questions.Some? && i < |input.questions.value| && input.questions.value[i].Some?
    then text == input.questions.value[i].value
    else |text| > 9 && text[..9] == "question_" && IsNumeral(text[9..]) && ParseDigits(text[9..]) == i
  }

  /** What answer `a` says: its widget, or its own text. */
  predicate SaysValue(a: Answer, value: string) { a == Choice(value) || a == FreeText(value) }

  lemma AsksExactly(input: Input, i: nat, text: string)
    ensures Asks(input, i, text) <==> text == QuestionText(input, i)
  {
    DigitsAreNumeral(i);
    ParseDigitsInverts(i);
    if |text| > 9 && text[..9] == "question_" {
      assert text == "question_" + text[9..];
      if IsNumeral(text[9..]) {
        NumeralIsDigits(text[9..]);
      }
    }
    assert ("question_" + Digits(i))[..9] == "question_" && ("question_" + Digits(i))[9..] == Digits(i);
  }

  /** The last of the first `n` answers whose question has this text. */
  predicate LastAsked(input: Input, n: nat, text: string, i: nat) {
    i < n && Asks(input, i, text) && forall k :: i < k < n ==> !Asks(input, k, text)
  }

  /** The tool's input holds, for the text of each question that has an answer, the last such question's
    * answer, and for no other text anything; and beside them the last free text, when there is one. */
  lemma ToolGetsAnswers(input: Input, answers: seq<Answer>, text: string)
    ensures var filed := Filed(Texts(input, |answers|), Values(answers));
      && (text in filed <==> text != "__proto__" && exists i :: 0 <= i < |answers| && Asks(input, i, text))
      && (text in filed ==>
            exists i ::
              0 <= i < |answers| && LastAsked(input, |answers|, text, i) && SaysValue(answers[i], filed[text]))
  {
    var texts, values := Texts(input, |answers|), Values(answers);
    FiledTexts(texts, values, text);
    forall i: nat ensures Asks(input, i, text) <==> text == QuestionText(input, i) {
      AsksExactly(input, i, text);
    }
    if text in Filed(texts, values) {
      var i :| 0 <= i < |texts| && texts[i] == text;
      var j := LastWins(texts, values, i);
      assert forall k :: j < k < |texts| ==> texts[k] == QuestionText(input, k);
      assert LastAsked(input, |answers|, text, j) && SaysValue(answers[j], values[j]);
    }
    if text != "__proto__" && exists i :: 0 <= i < |answers| && Asks(input, i, text) {
      var i :| 0 <= i < |answers| && Asks(input, i, text);
      assert texts[i] == text;
    }
  }

  /** The response is the last free text among the answers, and there is none exactly without one. */
  lemma {:induction false} ResponseIsLast(answers: seq<Answer>)
    ensures LastFreeText(answers).None? <==> forall i :: 0 <= i < |answers| ==> !answers[i].FreeText?
    ensures LastFreeText(answers).Some? ==>
              exists i :: 0 <= i < |answers| && answers[i] == FreeText(LastFreeText(answers).value)
                          && forall k :: i < k < |answers| ==> !answers[k].FreeText?
  {
    if answers != [] && !answers[|answers| - 1].FreeText? {
      var front := answers[..|answers| - 1];
      ResponseIsLast(front);
      if LastFreeText(front).Some? {
        var i :| 0 <= i < |front| && front[i] == FreeText(LastFreeText(front).value)
                 && forall k :: i < k < |front| ==> !front[k].FreeText?;
        assert answers[i] == front[i] && forall k :: i < k < |front| ==> answers[k] == front[k];
      }
    }
  }
}
