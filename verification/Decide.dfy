/** `decide` of apps/decision-local/decide.py: a request becomes classification heads,
    and the scores of the heads become answers. Probabilities are real numbers. */
module Decide {
  import opened Basics
  import opened CleanText
  import opened Decimals
  import opened Peakedness
  import opened UniqueNames

  datatype Result<+T> = Ok(value: T) | BadRequest | NotServed | EngineFailed

  /** A JSON value, as far as the request is looked at. */
  datatype Json = Null | Text(text: string) | List(items: seq<Json>) | Object(entries: seq<Pair>) | Other

  datatype Pair = Pair(key: string, value: Json)

  /** `value.get(key)`: Null when there is no such key. */
  function Get(value: Json, key: string): Json
    requires value.Object?
  {
    GetIn(value.entries, key)
  }

  function GetIn(entries: seq<Pair>, key: string): Json {
    if entries == [] then Null else if entries[0].key == key then entries[0].value else GetIn(entries[1..], key)
  }

  function Keys(entries: seq<Pair>): (r: seq<string>)
    ensures |r| == |entries| && forall i | 0 <= i < |r| :: r[i] == entries[i].key
  {
    seq(|entries|, i requires 0 <= i < |entries| => entries[i].key)
  }

  const MAX_QUESTIONS := 64
  const MAX_CHOICE_OPTIONS := 255
  const MIN_SCORE_LEVELS := 2

  /** One label as the model sees it, and the key the caller sent for it. */
  datatype Label = Label(name: string, description: Option<string>, key: string)

  datatype Kind = Noul | Choice | Score

  datatype Head = Head(questionId: string, name: string, kind: Kind, instruction: string, labels: seq<Label>)

  datatype Prepared = Prepared(model: Option<string>, text: string, heads: seq<Head>)

  // ----- the request --------------------------------------------------------

  predicate IsBlankText(s: string) { TrimBy(s, IsBlank) == "" }

  /** A non-empty text that cleaning leaves something of. */
  function RequireText(value: Json): Option<string> {
    if !value.Text? || IsBlankText(value.text) || Clean(value.text) == "" then None else Some(Clean(value.text))
  }

  function RequireTexts(values: seq<Json>): (r: Option<seq<string>>)
    ensures r.Some? ==> |r.value| == |values|
  {
    AllOf(seq(|values|, i requires 0 <= i < |values| => RequireText(values[i])))
  }

  function TextsOf(keys: seq<string>): (r: seq<Json>)
    ensures |r| == |keys| && forall i | 0 <= i < |r| :: r[i] == Text(keys[i])
  {
    seq(|keys|, i requires 0 <= i < |keys| => Text(keys[i]))
  }

  function Zip(names: seq<string>, descriptions: seq<Option<string>>, keys: seq<string>): (r: seq<Label>)
    requires |names| == |descriptions| == |keys|
    ensures |r| == |names|
    ensures forall i | 0 <= i < |r| :: r[i].name == names[i] && r[i].key == keys[i]
  {
    seq(|names|, i requires 0 <= i < |names| => Label(names[i], CleanDescription(descriptions[i]), keys[i]))
  }

  function CleanDescription(description: Option<string>): Option<string> {
    if description.None? || Clean(description.value) == "" then None else Some(Clean(description.value))
  }

  /** `_labels`: the keys cleaned, kept apart, and tied to what the caller sent. */
  function Labels(keys: seq<string>, descriptions: seq<Option<string>>): (r: Option<seq<Label>>)
    requires |keys| == |descriptions|
  {
    match RequireTexts(TextsOf(keys))
    case None => None
    case Some(texts) => Some(Zip(Unique(texts, " "), descriptions, keys))
  }

  const YES := "yes"
  const NO := "no"

  function NoulLabels(criteria: Json): Option<seq<Label>> {
    if criteria == Null then Labels([YES, NO], [None, None])
    else if !criteria.Object? then None
    else
      var yes, no := RequireText(Get(criteria, "true")), RequireText(Get(criteria, "false"));
      if yes.None? || no.None? then None else Labels([YES, NO], [yes, no])
  }

  /** The descriptions of options; None as a whole when one is no string. */
  function Descriptions(entries: seq<Pair>): (r: Option<seq<Option<string>>>)
    ensures r.Some? ==> |r.value| == |entries|
  {
    if entries == [] then Some([])
    else
      var front, last := Descriptions(entries[..|entries| - 1]), entries[|entries| - 1].value;
      if front.None? || (last != Null && !last.Text?) then None
      else Some(front.value + [if last.Text? && !IsBlankText(last.text) then Some(last.text) else None])
  }

  function ChoiceLabels(criteria: Json): Option<seq<Label>> {
    if !criteria.Object? || criteria.entries == [] || |criteria.entries| > MAX_CHOICE_OPTIONS then None
    else
      match Descriptions(criteria.entries)
      case None => None
      case Some(descriptions) => Labels(Keys(criteria.entries), descriptions)
  }

  function Numbered(names: seq<string>): (r: seq<Label>)
    ensures |r| == |names|
    ensures forall i | 0 <= i < |r| :: r[i] == Label(names[i], None, Decimal(i))
  {
    seq(|names|, i requires 0 <= i < |names| => Label(names[i], None, Decimal(i)))
  }

  function ScoreLabels(criteria: Json): Option<seq<Label>> {
    if !criteria.List? || |criteria.items| < MIN_SCORE_LEVELS then None
    else
      match RequireTexts(criteria.items)
      case None => None
      case Some(levels) => Some(Numbered(Unique(levels, " ")))
  }

  function MakeHead(questionId: string, name: string, raw: Json): Option<Head> {
    if !raw.Object? then None
    else
      match RequireText(Get(raw, "instructions"))
      case None => None
      case Some(instruction) =>
        var criteria := Get(raw, "criteria");
        var kind :=
          if Get(raw, "type") == Text("noul") then Some(Noul)
          else if Get(raw, "type") == Text("choice") then Some(Choice)
          else if Get(raw, "type") == Text("score") then Some(Score)
          else None;
        if kind.None? then None
        else
          var labels :=
            match kind.value
            case Noul => NoulLabels(criteria)
            case Choice => ChoiceLabels(criteria)
            case Score => ScoreLabels(criteria);
          if labels.None? then None else Some(Head(questionId, name, kind.value, instruction, labels.value))
  }

  function TaskNames(ids: seq<string>): (r: Option<seq<string>>)
    ensures r.Some? ==> |r.value| == |ids|
  {
    AllOf(seq(|ids|, i requires 0 <= i < |ids| => TaskName(ids[i])))
  }

  function MakeHeads(questions: seq<Pair>, names: seq<string>): (r: Option<seq<Head>>)
    requires |questions| == |names|
    ensures r.Some? ==> |r.value| == |questions|
  {
    AllOf(seq(|questions|, i requires 0 <= i < |questions| => MakeHead(questions[i].key, names[i], questions[i].value)))
  }

  predicate HasKey(entries: seq<Pair>, key: string) { exists i | 0 <= i < |entries| :: entries[i].key == key }

  /** `prepare`; `render` turns the state into text. */
  function Prepare(body: Json, render: Json -> string): Option<Prepared> {
    if !body.Object? then None
    else
      var model, state, questions := Get(body, "model"), Get(body, "state"), Get(body, "questions");
      if model != Null && (!model.Text? || IsBlankText(model.text)) then None
      else if !HasKey(body.entries, "state") || !(state.Text? || state.List? || state.Object?) then None
      else if !questions.Object? || questions.entries == [] || |questions.entries| > MAX_QUESTIONS then None
      else
        var ids := Keys(questions.entries);
        var names := TaskNames(ids);
        if RequireTexts(TextsOf(ids)).None? || names.None? then None
        else
          match MakeHeads(questions.entries, Unique(names.value, "_"))
          case None => None
          case Some(heads) =>
            var text := render(state);
            Some(Prepared(
              if model.Text? then Some(TrimBy(model.text, IsBlank)) else None,
              if IsBlankText(text) then "-" else text,
              heads))
  }

  // ----- the scores ---------------------------------------------------------

  /** A number the engine returned, if it is finite. */
  datatype Number = NotFinite | Finite(value: real)

  type Scores = map<string, map<string, Number>>

  predicate Usable(raw: map<string, Number>, name: string) {
    name in raw && raw[name].Finite? && raw[name].value >= 0.0
  }

  /** What the engine gave the labels, in their order. */
  function Weights(labels: seq<Label>, raw: map<string, Number>): (r: Option<seq<real>>)
    ensures r.Some? ==> |r.value| == |labels|
    ensures r.Some? ==> forall i | 0 <= i < |labels| ::
              Usable(raw, labels[i].name) && r.value[i] == raw[labels[i].name].value
  {
    if labels == [] then Some([])
    else
      var front, last := Weights(labels[..|labels| - 1], raw), labels[|labels| - 1].name;
      if front.None? || !Usable(raw, last) then None else Some(front.value + [raw[last].value])
  }

  function Scaled(ps: seq<real>, total: real): (r: seq<real>)
    requires total > 0.0
    ensures |r| == |ps| && forall i | 0 <= i < |r| :: r[i] == ps[i] / total
  {
    seq(|ps|, i requires 0 <= i < |ps| => ps[i] / total)
  }

  /** `_normalise`: the probabilities of the labels, in their order. */
  function Normalised(labels: seq<Label>, raw: map<string, Number>): Option<seq<real>> {
    match Weights(labels, raw)
    case None => None
    case Some(ps) => if Sum(ps) <= 0.0 then None else Some(Scaled(ps, Sum(ps)))
  }

  method Normalise(labels: seq<Label>, raw: map<string, Number>) returns (r: Option<seq<real>>)
    ensures r == Normalised(labels, raw)
  {
    var probs: seq<real> := [];
    for i := 0 to |labels|
      invariant Weights(labels[..i], raw) == Some(probs)
    {
      assert labels[..i + 1][..i] == labels[..i];
      var name := labels[i].name;
      if name !in raw || raw[name].NotFinite? || raw[name].value < 0.0 {
        assert Weights(labels, raw).Some? ==> Usable(raw, labels[i].name);
        return None;
      }
      probs := probs + [raw[name].value];
    }
    assert labels[..|labels|] == labels;
    var total := Sum(probs);
    r := if total <= 0.0 then None else Some(Scaled(probs, total));
  }

  // ----- the answers --------------------------------------------------------

  datatype Answer =
    | NoulAnswer(noul: real)
    | ChoiceAnswer(choice: string, keys: seq<string>, probabilities: seq<real>, confidence: real)
    | ScoreAnswer(score: real, legend: seq<string>, probabilities: seq<real>, confidence: real)

  /** The first greatest of `ps`. */
  function Best(ps: seq<real>): (r: nat)
    requires ps != []
    ensures r < |ps|
  {
    if |ps| == 1 then 0
    else
      var front := Best(ps[..|ps| - 1]);
      if ps[|ps| - 1] > ps[front] then |ps| - 1 else front
  }

  /** The expected level. */
  function Expected(ps: seq<real>): real {
    if ps == [] then 0.0 else Expected(ps[..|ps| - 1]) + (|ps| - 1) as real * ps[|ps| - 1]
  }

  function LabelKeys(labels: seq<Label>): (r: seq<string>)
    ensures |r| == |labels| && forall i | 0 <= i < |r| :: r[i] == labels[i].key
  {
    seq(|labels|, i requires 0 <= i < |labels| => labels[i].key)
  }

  function LabelNames(labels: seq<Label>): (r: seq<string>)
    ensures |r| == |labels| && forall i | 0 <= i < |r| :: r[i] == labels[i].name
  {
    seq(|labels|, i requires 0 <= i < |labels| => labels[i].name)
  }

  function AnswerOf(head: Head, ps: seq<real>, log: Log): Answer
    requires |ps| == |head.labels| > 0
  {
    match head.kind
    case Noul => NoulAnswer(ps[0])
    case Choice => ChoiceAnswer(head.labels[Best(ps)].key, LabelKeys(head.labels), ps, Confidence(ps, log))
    case Score =>
      ScoreAnswer(Clamp(Expected(ps), (|ps| - 1) as real), LabelNames(head.labels), ps, Confidence(ps, log))
  }

  datatype Answered = Answered(id: string, answer: Answer)

  /** The probabilities of a head, if the engine scored it. */
  function HeadScores(head: Head, raw: Scores): (r: Option<seq<real>>)
    ensures r.Some? ==> |r.value| == |head.labels|
  {
    if head.name !in raw || head.labels == [] then None else Normalised(head.labels, raw[head.name])
  }

  function Answers(heads: seq<Head>, raw: Scores, log: Log): (r: Option<seq<Answered>>)
    ensures r.Some? ==> |r.value| == |heads|
  {
    if heads == [] then Some([])
    else
      var head := heads[|heads| - 1];
      var front, ps := Answers(heads[..|heads| - 1], raw, log), HeadScores(head, raw);
      if front.None? || ps.None? then None
      else Some(front.value + [Answered(head.questionId, AnswerOf(head, ps.value, log))])
  }

  method AnswerAll(heads: seq<Head>, raw: Scores, log: Log) returns (r: Option<seq<Answered>>)
    ensures r == Answers(heads, raw, log)
  {
    var answers: seq<Answered> := [];
    for i := 0 to |heads|
      invariant Answers(heads[..i], raw, log) == Some(answers)
    {
      var head := heads[i];
      assert heads[..i + 1][..i] == heads[..i];
      if head.name !in raw || head.labels == [] {
        OneUnscored(heads, raw, log, i);
        return None;
      }
      var ps := Normalise(head.labels, raw[head.name]);
      if ps.None? {
        OneUnscored(heads, raw, log, i);
        return None;
      }
      answers := answers + [Answered(head.questionId, AnswerOf(head, ps.value, log))];
    }
    assert heads[..|heads|] == heads;
    r := Some(answers);
  }

  /** The engine: the scores of the heads, and how many tokens it read. */
  type Scorer = (string, seq<Head>) -> (Scores, int)

  datatype Reply = Reply(model: string, answers: seq<Answered>, inputTokens: int)

  function Decided(body: Json, render: Json -> string, scorer: Scorer, log: Log, modelId: string): Result<Reply> {
    match Prepare(body, render)
    case None => BadRequest
    case Some(p) =>
      if p.model.Some? && p.model.value != modelId then NotServed
      else
        var (raw, tokens) := scorer(p.text, p.heads);
        match Answers(p.heads, raw, log)
        case None => EngineFailed
        case Some(answers) => Ok(Reply(modelId, answers, tokens))
  }

  method DecideRequest(body: Json, render: Json -> string, scorer: Scorer, log: Log, modelId: string)
    returns (r: Result<Reply>)
    ensures r == Decided(body, render, scorer, log, modelId)
  {
    var prepared := Prepare(body, render);
    if prepared.None? {
      return BadRequest;
    }
    var p := prepared.value;
    if p.model.Some? && p.model.value != modelId {
      return NotServed;
    }
    var (raw, tokens) := scorer(p.text, p.heads);
    var answers := AnswerAll(p.heads, raw, log);
    r := if answers.None? then EngineFailed else Ok(Reply(modelId, answers.value, tokens));
  }

  lemma {:induction false} OneUnscored(heads: seq<Head>, raw: Scores, log: Log, i: nat)
    requires i < |heads| && HeadScores(heads[i], raw) == None
    ensures Answers(heads, raw, log) == None
    decreases |heads|
  {
    if i < |heads| - 1 {
      OneUnscored(heads[..|heads| - 1], raw, log, i);
    }
  }

  // ----- heads --------------------------------------------------------------

  /** A head whose labels the model and the caller can tell apart. */
  ghost predicate HeadOk(h: Head) {
    && h.labels != [] && Distinct(LabelNames(h.labels)) && Distinct(LabelKeys(h.labels))
    && (h.kind.Noul? ==> LabelKeys(h.labels) == [YES, NO])
    && (h.kind.Score? ==> |h.labels| >= MIN_SCORE_LEVELS)
  }

  /** The keys a question's distribution is over: the caller's options, or the levels'
      numbers. */
  ghost predicate KeysOf(h: Head, raw: Json) {
    match h.kind
    case Noul => LabelKeys(h.labels) == [YES, NO]
    case Choice => raw.Object? && Get(raw, "criteria").Object? &&
      LabelKeys(h.labels) == Keys(Get(raw, "criteria").entries)
    case Score =>
      && raw.Object? && Get(raw, "criteria").List? && |h.labels| == |Get(raw, "criteria").items|
      && forall i | 0 <= i < |h.labels| :: h.labels[i].key == Decimal(i)
  }

  ghost predicate OptionsDistinct(raw: Json) {
    raw.Object? && Get(raw, "criteria").Object? ==> Distinct(Keys(Get(raw, "criteria").entries))
  }

  lemma LabelsRight(keys: seq<string>, descriptions: seq<Option<string>>)
    requires |keys| == |descriptions| && Labels(keys, descriptions).Some?
    ensures var labels := Labels(keys, descriptions).value;
            LabelKeys(labels) == keys && Distinct(LabelNames(labels))
  {
    var texts := RequireTexts(TextsOf(keys)).value;
    UniqueIsRight(texts, " ");
    var labels := Labels(keys, descriptions).value;
    assert LabelNames(labels) == Unique(texts, " ");
    assert LabelKeys(labels) == keys;
  }

  lemma NumberedRight(names: seq<string>)
    requires Distinct(names)
    ensures Distinct(LabelNames(Numbered(names))) && Distinct(LabelKeys(Numbered(names)))
  {
    var labels := Numbered(names);
    assert LabelNames(labels) == names;
    forall i, j | 0 <= i < j < |labels| ensures LabelKeys(labels)[i] != LabelKeys(labels)[j] {
      if Decimal(i) == Decimal(j) {
        DecimalsDiffer(i, j);
      }
    }
  }

  lemma HeadRight(questionId: string, name: string, raw: Json)
    requires MakeHead(questionId, name, raw).Some? && OptionsDistinct(raw)
    ensures var h := MakeHead(questionId, name, raw).value;
            HeadOk(h) && KeysOf(h, raw) && h.questionId == questionId && h.name == name
  {
    var h := MakeHead(questionId, name, raw).value;
    var criteria := Get(raw, "criteria");
    match h.kind
    case Noul =>
      NoulRight(criteria);
    case Choice =>
      LabelsRight(Keys(criteria.entries), Descriptions(criteria.entries).value);
    case Score =>
      UniqueIsRight(RequireTexts(criteria.items).value, " ");
      NumberedRight(Unique(RequireTexts(criteria.items).value, " "));
  }

  lemma NoulRight(criteria: Json)
    requires NoulLabels(criteria).Some?
    ensures var labels := NoulLabels(criteria).value;
            LabelKeys(labels) == [YES, NO] && Distinct(LabelNames(labels)) && Distinct(LabelKeys(labels)) &&
              labels != []
  {
    if criteria == Null {
      LabelsRight([YES, NO], [None, None]);
    } else {
      LabelsRight([YES, NO], [RequireText(Get(criteria, "true")), RequireText(Get(criteria, "false"))]);
    }
    assert YES != NO by {
      assert YES[0] != NO[0];
    }
  }

  /** A request whose mappings have distinct keys. */
  ghost predicate WellFormed(body: Json) {
    body.Object? && Get(body, "questions").Object? ==>
      var questions := Get(body, "questions").entries;
      Distinct(Keys(questions)) && forall i | 0 <= i < |questions| :: OptionsDistinct(questions[i].value)
  }

  function Questions(body: Json): seq<Pair> {
    if body.Object? && Get(body, "questions").Object? then Get(body, "questions").entries else []
  }

  function HeadNames(heads: seq<Head>): (r: seq<string>)
    ensures |r| == |heads| && forall i | 0 <= i < |r| :: r[i] == heads[i].name
  {
    seq(|heads|, i requires 0 <= i < |heads| => heads[i].name)
  }

  lemma PrepareParts(body: Json, render: Json -> string)
    requires Prepare(body, render).Some?
    ensures var texts := TaskNames(Keys(Questions(body)));
            texts.Some? && MakeHeads(Questions(body), Unique(texts.value, "_")) ==
              Some(Prepare(body, render).value.heads)
  {
  }

  ghost predicate HeadFor(h: Head, question: Pair) {
    HeadOk(h) && KeysOf(h, question.value) && h.questionId == question.key && CleanText.Usable(h.name)
  }

  lemma EachHead(questions: seq<Pair>, names: seq<string>, i: nat)
    requires |questions| == |names| && i < |questions| && MakeHeads(questions, names).Some?
    ensures MakeHead(questions[i].key, names[i], questions[i].value) == Some(MakeHeads(questions, names).value[i])
  {
    var made := seq(|questions|,
      i requires 0 <= i < |questions| => MakeHead(questions[i].key, names[i], questions[i].value));
    assert made[i] == Some(AllOf(made).value[i]);
  }

  lemma EachTaskName(ids: seq<string>, i: nat)
    requires i < |ids| && TaskNames(ids).Some?
    ensures TaskName(ids[i]) == Some(TaskNames(ids).value[i])
  {
    var made := seq(|ids|, i requires 0 <= i < |ids| => TaskName(ids[i]));
    assert made[i] == Some(AllOf(made).value[i]);
  }

  lemma OneHead(questions: seq<Pair>, names: seq<string>, heads: seq<Head>, i: nat)
    requires |questions| == |names| && MakeHeads(questions, names) == Some(heads) && i < |questions|
    requires OptionsDistinct(questions[i].value) && CleanText.Usable(names[i])
    ensures |heads| == |questions| && HeadFor(heads[i], questions[i]) && heads[i].name == names[i]
  {
    EachHead(questions, names, i);
    HeadRight(questions[i].key, names[i], questions[i].value);
  }

  lemma HeadName(question: Pair, name: string)
    requires MakeHead(question.key, name, question.value).Some?
    ensures MakeHead(question.key, name, question.value).value.name == name
  {
  }

  lemma HeadNamesAre(questions: seq<Pair>, names: seq<string>, heads: seq<Head>)
    requires |questions| == |names| && MakeHeads(questions, names) == Some(heads)
    ensures |heads| == |questions| && HeadNames(heads) == names
  {
    forall i | 0 <= i < |heads| ensures heads[i].name == names[i] {
      EachHead(questions, names, i);
      HeadName(questions[i], names[i]);
    }
  }

  lemma AllHeads(questions: seq<Pair>, names: seq<string>, heads: seq<Head>)
    requires |questions| == |names| && MakeHeads(questions, names) == Some(heads)
    requires forall i | 0 <= i < |questions| :: OptionsDistinct(questions[i].value)
    requires forall i | 0 <= i < |names| :: CleanText.Usable(names[i])
    ensures |heads| == |questions| && forall i | 0 <= i < |heads| :: HeadFor(heads[i], questions[i])
  {
    forall i | 0 <= i < |heads| ensures HeadFor(heads[i], questions[i]) {
      OneHead(questions, names, heads, i);
    }
  }

  lemma HeadsRight(questions: seq<Pair>, names: seq<string>, heads: seq<Head>)
    requires |questions| == |names| && MakeHeads(questions, names) == Some(heads)
    requires Distinct(names) && forall i | 0 <= i < |names| :: CleanText.Usable(names[i])
    requires forall i | 0 <= i < |questions| :: OptionsDistinct(questions[i].value)
    ensures |heads| == |questions| && Distinct(HeadNames(heads))
    ensures forall i | 0 <= i < |heads| :: HeadFor(heads[i], questions[i])
  {
    HeadNamesAre(questions, names, heads);
    AllHeads(questions, names, heads);
  }

  lemma NamesRight(ids: seq<string>, texts: seq<string>) returns (names: seq<string>)
    requires TaskNames(ids) == Some(texts)
    ensures names == Unique(texts, "_") && |names| == |ids| && Distinct(names)
    ensures forall i | 0 <= i < |names| :: CleanText.Usable(names[i])
  {
    names := Unique(texts, "_");
    forall i | 0 <= i < |ids| ensures TaskName(ids[i]) == Some(texts[i]) {
      EachTaskName(ids, i);
    }
    HeadNamesUsable(ids, texts);
  }

  /** What `prepare` makes of a request: a head for every question, in order, under
      names that are all apart and that the model can be given. */
  lemma PreparedRight(body: Json, render: Json -> string)
    requires Prepare(body, render).Some? && WellFormed(body)
    ensures var heads := Prepare(body, render).value.heads;
            |heads| == |Questions(body)| && Distinct(HeadNames(heads))
            && forall i | 0 <= i < |heads| :: HeadFor(heads[i], Questions(body)[i])
  {
    PrepareParts(body, render);
    var names := NamesRight(Keys(Questions(body)), TaskNames(Keys(Questions(body))).value);
    HeadsRight(Questions(body), names, Prepare(body, render).value.heads);
  }

  // ----- distributions ------------------------------------------------------

  lemma {:induction false} SumScaled(ps: seq<real>, total: real)
    requires total > 0.0
    ensures Sum(Scaled(ps, total)) == Sum(ps) / total
  {
    if ps != [] {
      var front := ps[..|ps| - 1];
      SumScaled(front, total);
      assert Scaled(ps, total)[..|ps| - 1] == Scaled(front, total);
      DivideSum(Sum(front), ps[|ps| - 1], total);
    }
  }

  lemma DivideSum(a: real, b: real, total: real)
    requires total > 0.0
    ensures a / total + b / total == (a + b) / total
  {
  }

  lemma NotNegative(a: real, total: real)
    requires total > 0.0 && a >= 0.0
    ensures a / total >= 0.0
  {
  }

  /** Whatever the engine returned, what is not rejected is a distribution over the
      labels, each probability in proportion to what its own label was given. */
  lemma NormalisedRight(labels: seq<Label>, raw: map<string, Number>)
    requires Normalised(labels, raw).Some?
    ensures var ps := Normalised(labels, raw).value;
            && |ps| == |labels| && Distribution(ps)
            && exists total :: Proportional(labels, raw, ps, total)
  {
    var weights := Weights(labels, raw).value;
    var total, ps := Sum(weights), Normalised(labels, raw).value;
    SumScaled(weights, total);
    assert total / total == 1.0;
    forall i | 0 <= i < |ps| ensures ps[i] >= 0.0 {
      NotNegative(weights[i], total);
    }
    assert Proportional(labels, raw, ps, total);
  }

  ghost predicate Proportional(labels: seq<Label>, raw: map<string, Number>, ps: seq<real>, total: real) {
    total > 0.0 && |ps| == |labels| &&
    forall i | 0 <= i < |labels| :: Usable(raw, labels[i].name) && ps[i] == raw[labels[i].name].value / total
  }

  // ----- answers ------------------------------------------------------------

  /** The choice is the first of the most probable. */
  lemma {:induction false} BestIsFirst(ps: seq<real>)
    requires ps != []
    ensures forall i | 0 <= i < |ps| :: ps[i] <= ps[Best(ps)]
    ensures forall i | 0 <= i < Best(ps) :: ps[i] < ps[Best(ps)]
  {
    if |ps| > 1 {
      BestIsFirst(ps[..|ps| - 1]);
    }
  }

  lemma {:induction false} ExpectedBounds(ps: seq<real>, top: nat)
    requires |ps| <= top + 1 && forall i | 0 <= i < |ps| :: ps[i] >= 0.0
    ensures 0.0 <= Expected(ps) <= top as real * Sum(ps)
  {
    if ps != [] {
      var last := ps[|ps| - 1];
      ExpectedBounds(ps[..|ps| - 1], top);
      LevelBound(|ps| - 1, top, last, Sum(ps[..|ps| - 1]));
    }
  }

  lemma LevelBound(level: nat, top: nat, p: real, sum: real)
    requires level <= top && p >= 0.0
    ensures 0.0 <= level as real * p <= top as real * p
    ensures top as real * (sum + p) == top as real * sum + top as real * p
  {
    MultiplyBound(level as real, top as real, p);
  }

  lemma MultiplyBound(a: real, b: real, p: real)
    requires 0.0 <= a <= b && p >= 0.0
    ensures 0.0 <= a * p <= b * p
  {
  }

  /** The expected level lies between the first and the last, so the clamp does
      nothing. */
  lemma ScoreInRange(ps: seq<real>)
    requires ps != [] && Distribution(ps)
    ensures 0.0 <= Expected(ps) <= (|ps| - 1) as real
    ensures Clamp(Expected(ps), (|ps| - 1) as real) == Expected(ps)
  {
    ExpectedBounds(ps, |ps| - 1);
  }

  /** What an answer says, given the probabilities it is drawn from. */
  ghost predicate Right(h: Head, ps: seq<real>, log: Log, a: Answer)
    requires |ps| == |h.labels| > 0
  {
    match h.kind
    case Noul => a == NoulAnswer(ps[0]) && 0.0 <= ps[0] <= 1.0
    case Choice =>
      && a.ChoiceAnswer? && a.probabilities == ps && a.keys == LabelKeys(h.labels)
      && (exists k :: 0 <= k < |ps| && FirstBest(ps, k) && a.choice == h.labels[k].key)
      && Sure(ps, log, a.confidence)
    case Score =>
      && a.ScoreAnswer? && a.probabilities == ps && a.legend == LabelNames(h.labels)
      && a.score == Expected(ps) && 0.0 <= a.score <= (|ps| - 1) as real
      && Sure(ps, log, a.confidence)
  }

  /** The confidence lies between 0 and 1: it is 1 for a single option, and else one less
      the entropy's share of the greatest there is, `log n`. */
  ghost predicate Sure(ps: seq<real>, log: Log, confidence: real) {
    && 0.0 <= confidence <= 1.0
    && if |ps| == 1 then confidence == 1.0
       else log(|ps| as real) > 0.0 && confidence == 1.0 - Entropy(ps, log) / log(|ps| as real)
  }

  ghost predicate FirstBest(ps: seq<real>, k: nat)
    requires k < |ps|
  {
    (forall i | 0 <= i < |ps| :: ps[i] <= ps[k]) && forall i | 0 <= i < k :: ps[i] < ps[k]
  }

  lemma AnswerRight(h: Head, ps: seq<real>, log: Log)
    requires |ps| == |h.labels| > 0 && Distribution(ps) && IsLog(log)
    ensures Right(h, ps, log, AnswerOf(h, ps, log))
  {
    BestIsFirst(ps);
    assert FirstBest(ps, Best(ps));
    ScoreInRange(ps);
    AtMostSum(ps, 0);
    if |ps| > 1 {
      ConfidenceInRange(ps, log);
    }
  }

  /** Whether `a` is the answer to question `q`: over the question's own keys, drawn
      from a distribution in proportion to the scores of its head's labels. */
  ghost predicate AnswersQuestion(q: Pair, h: Head, raw: Scores, log: Log, a: Answered) {
    && a.id == q.key && HeadFor(h, q) && h.name in raw
    && exists ps, total :: Drawn(h, raw[h.name], log, a.answer, ps, total)
  }

  ghost predicate Drawn(h: Head, raw: map<string, Number>, log: Log, a: Answer, ps: seq<real>, total: real) {
    |ps| == |h.labels| > 0 && Distribution(ps) && Proportional(h.labels, raw, ps, total) && Right(h, ps, log, a)
  }

  lemma {:induction false} EachAnswered(heads: seq<Head>, raw: Scores, log: Log, i: nat)
    requires Answers(heads, raw, log).Some? && i < |heads|
    ensures HeadScores(heads[i], raw).Some?
    ensures Answers(heads, raw, log).value[i] ==
            Answered(heads[i].questionId, AnswerOf(heads[i], HeadScores(heads[i], raw).value, log))
  {
    if i < |heads| - 1 {
      EachAnswered(heads[..|heads| - 1], raw, log, i);
    }
  }

  lemma OneAnswer(h: Head, q: Pair, raw: Scores, log: Log)
    requires HeadFor(h, q) && HeadScores(h, raw).Some? && IsLog(log)
    ensures AnswersQuestion(q, h, raw, log, Answered(h.questionId, AnswerOf(h, HeadScores(h, raw).value, log)))
  {
    var ps := HeadScores(h, raw).value;
    NormalisedRight(h.labels, raw[h.name]);
    AnswerRight(h, ps, log);
    var total :| Proportional(h.labels, raw[h.name], ps, total);
    assert Drawn(h, raw[h.name], log, AnswerOf(h, ps, log), ps, total);
  }

  /** For every request and whatever the engine returns, `decide` answers exactly the
      caller's questions, in order, each from a head and labels no other question or
      option reads: over exactly the caller's options, with probabilities that are not
      negative and sum to one, the first most probable choice, a score that is the
      expected level and lies on the scale, and a confidence between 0 and 1. */
  lemma DecidedRight(body: Json, render: Json -> string, scorer: Scorer, log: Log, modelId: string)
    requires WellFormed(body) && IsLog(log) && Decided(body, render, scorer, log, modelId).Ok?
    ensures Prepare(body, render).Some?
    ensures var heads, reply := Prepare(body, render).value.heads, Decided(body, render, scorer, log, modelId).value;
            var (raw, tokens) := scorer(Prepare(body, render).value.text, heads);
            && reply.model == modelId && reply.inputTokens == tokens
            && |reply.answers| == |heads| == |Questions(body)| && Distinct(HeadNames(heads))
            && forall i | 0 <= i < |heads| :: AnswersQuestion(Questions(body)[i], heads[i], raw, log, reply.answers[i])
  {
    PreparedRight(body, render);
    var p := Prepare(body, render).value;
    var raw := scorer(p.text, p.heads).0;
    var answers := Decided(body, render, scorer, log, modelId).value.answers;
    forall i | 0 <= i < |answers| ensures AnswersQuestion(Questions(body)[i], p.heads[i], raw, log, answers[i]) {
      EachAnswered(p.heads, raw, log, i);
      assert HeadFor(p.heads[i], Questions(body)[i]);
      OneAnswer(p.heads[i], Questions(body)[i], raw, log);
    }
  }
}
