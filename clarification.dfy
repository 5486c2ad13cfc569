/**
 * The clarification step of the architect pipeline: from a free-text
 * project description it derives three multiple-choice questions (tech
 * stack, interface, features) by keyword search on the lower-cased text,
 * records the user's answers with one answer per question, and rebuilds
 * the project spec after every answer.
 */
module Clarification {
  import opened Text

  datatype QuestionOption = QuestionOption(id: string, caption: string, description: string, recommended: bool)

  datatype Question = Question(id: string, question: string, options: seq<QuestionOption>, allowCustom: bool)

  datatype Answer = Answer(questionId: string, selectedOptionId: Option<string>, customValue: Option<string>)

  datatype ProjectSpec = ProjectSpec(
    description: string,
    techStack: string,
    uiType: string,
    features: seq<string>,
    confirmed: bool)

  datatype ClarificationEvent =
    | QuestionsGenerated(questions: seq<Question>)
    | SpecConfirmed(spec: ProjectSpec)

  // ---------------------------------------------------------------------
  // Question generation
  // ---------------------------------------------------------------------

  /** Some keyword occurs in the text. */
  predicate AnyIn(text: string, keywords: seq<string>) {
    exists k :: 0 <= k < |keywords| && Contains(text, keywords[k])
  }

  function Recommended(id: string, caption: string, description: string): QuestionOption {
    QuestionOption(id, caption, description, true)
  }

  function Plain(id: string, caption: string, description: string): QuestionOption {
    QuestionOption(id, caption, description, false)
  }

  predicate IsGame(lower: string) { AnyIn(lower, ["game", "游戏"]) }
  predicate IsMobile(lower: string) { AnyIn(lower, ["mobile", "app", "移动"]) }
  predicate IsAi(lower: string) { AnyIn(lower, ["ai", "data", "模型"]) }
  predicate IsTool(lower: string) { AnyIn(lower, ["tool", "cli", "脚本"]) }

  function Ids(options: seq<QuestionOption>): (ids: seq<string>)
    ensures |ids| == |options|
    ensures forall i :: 0 <= i < |options| ==> ids[i] == options[i].id
  {
    seq(|options|, i requires 0 <= i < |options| => options[i].id)
  }

  /** Exactly the first option is marked recommended. */
  predicate FirstRecommended(options: seq<QuestionOption>) {
    && |options| >= 1
    && options[0].recommended
    && forall i :: 1 <= i < |options| ==> !options[i].recommended
  }

  /** The tech-stack question: the first matching domain decides the engines offered. */
  function TechQuestion(lower: string): (q: Question)
    ensures q.id == "tech-stack" && q.allowCustom && |q.options| >= 2
    ensures FirstRecommended(q.options)
    ensures IsGame(lower) ==> Ids(q.options) == ["unity", "godot", "canvas"]
    ensures !IsGame(lower) && IsMobile(lower) ==> Ids(q.options) == ["flutter", "react-native", "swift"]
    ensures !IsGame(lower) && !IsMobile(lower) && IsAi(lower) ==> Ids(q.options) == ["python", "cpp"]
    ensures !IsGame(lower) && !IsMobile(lower) && !IsAi(lower) ==> Ids(q.options) == ["nodejs", "python", "go", "rust"]
  {
    if IsGame(lower) then
      Question("tech-stack", "这是一个游戏项目，你倾向于使用什么引擎？",
        [Recommended("unity", "Unity (C#)", "专业 3D/2D 游戏引擎"),
         Plain("godot", "Godot", "轻量级开源引擎"),
         Plain("canvas", "HTML5 Canvas + TS", "网页小游戏")], true)
    else if IsMobile(lower) then
      Question("tech-stack", "移动端开发技术栈",
        [Recommended("flutter", "Flutter", "Google 跨平台 UI 框架"),
         Plain("react-native", "React Native", "使用 React 构建原生应用"),
         Plain("swift", "Swift (iOS)", "原生 iOS 开发")], true)
    else if IsAi(lower) then
      Question("tech-stack", "AI/数据项目通常使用",
        [Recommended("python", "Python (PyTorch/TF)", "AI 领域标准语言"),
         Plain("cpp", "C++", "高性能计算")], true)
    else
      Question("tech-stack", "你希望使用哪种技术栈？",
        [Recommended("nodejs", "Node.js + TypeScript", "通用全栈选择"),
         Plain("python", "Python", "简洁易用"),
         Plain("go", "Go", "高性能后端"),
         Plain("rust", "Rust", "系统级编程")], true)
  }

  /** The interface question: command line for tools, otherwise the four general kinds. */
  function UiQuestion(lower: string): (q: Question)
    ensures q.id == "ui-type" && q.allowCustom && |q.options| >= 2
    ensures FirstRecommended(q.options)
    ensures IsTool(lower) ==> Ids(q.options) == ["cli", "tui"]
    ensures !IsTool(lower) ==> Ids(q.options) == ["web", "desktop", "mobile", "api"]
  {
    if IsTool(lower) then
      Question("ui-type", "脚本/工具的交互方式",
        [Recommended("cli", "命令行 (CLI)", "纯文本交互，效率高"),
         Plain("tui", "终端 UI (TUI)", "带界面的终端应用")], true)
    else
      Question("ui-type", "首选的交互界面？",
        [Recommended("web", "Web 应用", "浏览器访问"),
         Plain("desktop", "桌面应用 (Electron)", "独立安装包"),
         Plain("mobile", "移动 App", "手机应用"),
         Plain("api", "无界面 (API 服务)", "仅提供接口")], true)
  }

  datatype FeatureRule = FeatureRule(key: string, caption: string, keywords: seq<string>)

  /** The five features the description can suggest, in the order they are offered. */
  const CommonFeatures: seq<FeatureRule> := [
    FeatureRule("auth", "用户认证 (Auth)", ["login", "user", "登录", "用户"]),
    FeatureRule("db", "数据库存储", ["data", "store", "db", "数据", "存"]),
    FeatureRule("api", "RESTful API", ["api", "接口", "server"]),
    FeatureRule("realtime", "实时通信 (WebSocket)", ["chat", "realtime", "socket", "聊"]),
    FeatureRule("search", "全文搜索", ["search", "find", "搜"])
  ]

  /** One recommended option per rule with a keyword in the text, in rule order. */
  function Matched(lower: string, rules: seq<FeatureRule>): (opts: seq<QuestionOption>)
    ensures |opts| <= |rules|
    ensures forall i :: 0 <= i < |opts| ==> opts[i].recommended && opts[i].description == "根据需求自动推荐"
    decreases |rules|
  {
    if rules == [] then []
    else
      var head := if AnyIn(lower, rules[0].keywords)
        then [Recommended(rules[0].key, rules[0].caption, "根据需求自动推荐")] else [];
      head + Matched(lower, rules[1..])
  }

  /** A rule's key is offered exactly when one of that rule's keywords occurs in the text. */
  lemma {:induction false} MatchedExactly(lower: string, rules: seq<FeatureRule>, key: string)
    ensures key in Ids(Matched(lower, rules)) <==>
              exists r :: 0 <= r < |rules| && rules[r].key == key && AnyIn(lower, rules[r].keywords)
    decreases |rules|
  {
    if rules != [] {
      var rest := rules[1..];
      MatchedExactly(lower, rest, key);
      var head := if AnyIn(lower, rules[0].keywords)
        then [Recommended(rules[0].key, rules[0].caption, "根据需求自动推荐")] else [];
      var tail := Matched(lower, rest);
      var here := rules[0].key == key && AnyIn(lower, rules[0].keywords);
      assert Matched(lower, rules) == head + tail;
      assert Ids(head + tail) == Ids(head) + Ids(tail);
      assert key in Ids(head) <==> here;
      if exists r :: 0 <= r < |rules| && rules[r].key == key && AnyIn(lower, rules[r].keywords) {
        var r :| 0 <= r < |rules| && rules[r].key == key && AnyIn(lower, rules[r].keywords);
        if r > 0 {
          assert rest[r - 1] == rules[r];
        }
      }
      if key in Ids(tail) {
        var r :| 0 <= r < |rest| && rest[r].key == key && AnyIn(lower, rest[r].keywords);
        assert rules[r + 1] == rest[r];
      }
    }
  }

  /** The features question: the suggested features, padded with two standard ones when fewer than two. */
  function FeatureQuestion(lower: string): (q: Question)
    ensures q.id == "features" && q.allowCustom
    ensures |q.options| >= 2
    ensures var m := Matched(lower, CommonFeatures);
      q.options == if |m| < 2 then m + [Plain("logging", "日志系统", "标准功能"), Plain("config", "配置管理", "标准功能")] else m
  {
    var m := Matched(lower, CommonFeatures);
    var opts := if |m| < 2 then m + [Plain("logging", "日志系统", "标准功能"), Plain("config", "配置管理", "标准功能")] else m;
    Question("features", "根据描述，我为你推荐了这些功能模块", opts, true)
  }

  /** generateQuestions: the three questions, always in this order. */
  function GenerateQuestions(description: string): (qs: seq<Question>)
    ensures |qs| == 3
    ensures qs[0].id == "tech-stack" && qs[1].id == "ui-type" && qs[2].id == "features"
    ensures qs[0].allowCustom && qs[1].allowCustom && qs[2].allowCustom
    ensures |qs[0].options| >= 2 && |qs[1].options| >= 2 && |qs[2].options| >= 2
  {
    var lower := ToLower(description);
    var tech, ui, features := TechQuestion(lower), UiQuestion(lower), FeatureQuestion(lower);
    [tech, ui, features]
  }

  /** The questions of a description are those of its lower-cased form: upper case changes nothing. */
  lemma GenerateQuestionsCaseBlind(description: string)
    ensures GenerateQuestions(description) == GenerateQuestions(ToLower(description))
  {
    ToLowerTwice(description);
  }

  /**
   * The game domain is tested first: a description that mentions a game
   * gets the game engines, whatever app, mobile or data words it also has.
   */
  lemma GameWinsOverMobile(description: string)
    requires IsGame(ToLower(description))
    ensures Ids(GenerateQuestions(description)[0].options) == ["unity", "godot", "canvas"]
  {
  }

  /** "Mobile Game App" names both a mobile app and a game, and gets the game engines. */
  lemma MobileGameAppGetsEngines()
    ensures IsMobile(ToLower("Mobile Game App"))
    ensures Ids(GenerateQuestions("Mobile Game App")[0].options) == ["unity", "godot", "canvas"]
  {
    MobileGameAppLower();
    GameWinsOverMobile("Mobile Game App");
  }

  lemma MobileGameAppLower()
    ensures ToLower("Mobile Game App") == "mobile game app"
    ensures IsGame("mobile game app") && IsMobile("mobile game app")
  {
    var lower := "mobile game app";
    assert ToLower("Mobile Game App") == lower;
    ContainsAt(lower, "game", 7);
    assert Contains(lower, ["game", "游戏"][0]);
    ContainsAt(lower, "mobile", 0);
    assert Contains(lower, ["mobile", "app", "移动"][0]);
  }

  // ---------------------------------------------------------------------
  // Answers and the spec
  // ---------------------------------------------------------------------

  /** JavaScript truthiness of an optional string: present and non-empty. */
  predicate Truthy(s: Option<string>) {
    s.Some? && s.value != ""
  }

  /** `a || b` on optional strings, falling back to `d`. */
  function OrElse(a: Option<string>, d: string): (r: string)
    ensures Truthy(a) ==> r == a.value
    ensures !Truthy(a) ==> r == d
  {
    if Truthy(a) then a.value else d
  }

  /** `answers.find(a => a.questionId === q)`: the first answer to `q`. */
  function Find(answers: seq<Answer>, q: string): (r: Option<Answer>)
    ensures r.Some? ==> r.value in answers && r.value.questionId == q
    ensures r.Some? ==> exists i :: 0 <= i < |answers| && answers[i] == r.value
                                   && forall j :: 0 <= j < i ==> answers[j].questionId != q
    ensures r.None? <==> forall i :: 0 <= i < |answers| ==> answers[i].questionId != q
    decreases |answers|
  {
    if answers == [] then None
    else if answers[0].questionId == q then Some(answers[0])
    else Find(answers[1..], q)
  }

  /** `answers.filter(a => a.questionId !== q)`. */
  function Without(answers: seq<Answer>, q: string): (r: seq<Answer>)
    ensures forall i :: 0 <= i < |r| ==> r[i].questionId != q && r[i] in answers
    ensures forall a :: a in answers && a.questionId != q ==> a in r
    decreases |answers|
  {
    if answers == [] then []
    else (if answers[0].questionId == q then [] else [answers[0]]) + Without(answers[1..], q)
  }

  /** submitAnswer on the list: the previous answer to the same question is replaced. */
  function Submit(answers: seq<Answer>, a: Answer): (r: seq<Answer>) {
    Without(answers, a.questionId) + [a]
  }

  lemma {:induction false} FindAppend(xs: seq<Answer>, ys: seq<Answer>, q: string)
    ensures Find(xs + ys, q) == if Find(xs, q).Some? then Find(xs, q) else Find(ys, q)
    decreases |xs|
  {
    if xs != [] {
      assert (xs + ys)[0] == xs[0];
      assert (xs + ys)[1..] == xs[1..] + ys;
      FindAppend(xs[1..], ys, q);
    } else {
      assert xs + ys == ys;
    }
  }

  /** Removing the answers to one question leaves the first answer to every other one. */
  lemma {:induction false} FindWithout(answers: seq<Answer>, q: string, other: string)
    requires other != q
    ensures Find(Without(answers, q), other) == Find(answers, other)
    decreases |answers|
  {
    if answers != [] {
      var head := if answers[0].questionId == q then [] else [answers[0]];
      FindAppend(head, Without(answers[1..], q), other);
      FindWithout(answers[1..], q, other);
    }
  }

  /** Last answer wins for its question, and the other questions keep theirs. */
  lemma SubmitFind(answers: seq<Answer>, a: Answer, q: string)
    ensures Find(Submit(answers, a), q) == if q == a.questionId then Some(a) else Find(answers, q)
  {
    FindAppend(Without(answers, a.questionId), [a], q);
    if q != a.questionId {
      FindWithout(answers, a.questionId, q);
    }
  }

  /** Each question has at most one answer. */
  predicate OnePerQuestion(answers: seq<Answer>) {
    forall i, j :: 0 <= i < j < |answers| ==> answers[i].questionId != answers[j].questionId
  }

  lemma {:induction false} WithoutKeepsOnePerQuestion(answers: seq<Answer>, q: string)
    requires OnePerQuestion(answers)
    ensures OnePerQuestion(Without(answers, q))
    decreases |answers|
  {
    if answers != [] {
      WithoutKeepsOnePerQuestion(answers[1..], q);
      var rest := Without(answers[1..], q);
      if answers[0].questionId != q {
        assert Without(answers, q) == [answers[0]] + rest;
        forall j | 0 <= j < |rest|
          ensures answers[0].questionId != rest[j].questionId
        {
          var k :| 0 <= k < |answers[1..]| && answers[1..][k] == rest[j];
          assert answers[k + 1] == rest[j];
        }
      } else {
        assert Without(answers, q) == rest;
      }
    }
  }

  /** Submitting keeps one answer per question. */
  lemma SubmitKeepsOnePerQuestion(answers: seq<Answer>, a: Answer)
    requires OnePerQuestion(answers)
    ensures OnePerQuestion(Submit(answers, a))
  {
    WithoutKeepsOnePerQuestion(answers, a.questionId);
  }

  /** updateSpec: the spec the answers describe, falling back to the defaults. */
  function SpecFrom(description: string, answers: seq<Answer>): (spec: ProjectSpec)
    ensures spec.description == description && !spec.confirmed
    ensures var tech := Find(answers, "tech-stack");
      spec.techStack ==
        if tech.Some? && Truthy(tech.value.customValue) then tech.value.customValue.value
        else if tech.Some? && Truthy(tech.value.selectedOptionId) then tech.value.selectedOptionId.value
        else "nodejs"
    ensures var ui := Find(answers, "ui-type");
      spec.uiType == if ui.Some? && Truthy(ui.value.selectedOptionId) then ui.value.selectedOptionId.value else "cli"
    ensures var f := Find(answers, "features");
      spec.features == if f.Some? && f.value.selectedOptionId.Some? then Split(f.value.selectedOptionId.value, ',') else []
  {
    var tech := Find(answers, "tech-stack");
    var ui := Find(answers, "ui-type");
    var f := Find(answers, "features");
    ProjectSpec(
      description,
      if tech.Some? then OrElse(tech.value.customValue, OrElse(tech.value.selectedOptionId, "nodejs")) else "nodejs",
      if ui.Some? then OrElse(ui.value.selectedOptionId, "cli") else "cli",
      if f.Some? && f.value.selectedOptionId.Some? then Split(f.value.selectedOptionId.value, ',') else [],
      false)
  }

  /** Answers to different questions can come in either order. */
  lemma SubmitCommutes(description: string, answers: seq<Answer>, a: Answer, b: Answer)
    requires a.questionId != b.questionId
    ensures SpecFrom(description, Submit(Submit(answers, a), b)) == SpecFrom(description, Submit(Submit(answers, b), a))
  {
    SubmitFindSwap(answers, a, b, "tech-stack");
    SubmitFindSwap(answers, a, b, "ui-type");
    SubmitFindSwap(answers, a, b, "features");
  }

  lemma SubmitFindSwap(answers: seq<Answer>, a: Answer, b: Answer, q: string)
    requires a.questionId != b.questionId
    ensures Find(Submit(Submit(answers, a), b), q) == Find(Submit(Submit(answers, b), a), q)
  {
    SubmitFind(Submit(answers, a), b, q);
    SubmitFind(answers, a, q);
    SubmitFind(Submit(answers, b), a, q);
    SubmitFind(answers, b, q);
  }

  /** The features chosen on the form come back as the spec's list. */
  lemma FeaturesRoundTrip(description: string, answers: seq<Answer>, chosen: seq<string>)
    requires |chosen| >= 1 && forall k :: 0 <= k < |chosen| ==> ',' !in chosen[k]
    ensures SpecFrom(description, Submit(answers, Answer("features", Some(Join(chosen, ',')), None))).features == chosen
  {
    var a := Answer("features", Some(Join(chosen, ',')), None);
    SubmitFind(answers, a, "features");
    SplitJoin(chosen, ',');
  }

  // ---------------------------------------------------------------------
  // The service
  // ---------------------------------------------------------------------

  class ClarificationService {
    var questions: seq<Question>
    var answers: seq<Answer>
    var currentSpec: Option<ProjectSpec>
    var userDescription: string
    var events: seq<ClarificationEvent>

    ghost predicate Valid()
      reads this
    {
      OnePerQuestion(answers)
    }

    constructor ()
      ensures Valid()
      ensures questions == [] && answers == [] && currentSpec == None && userDescription == "" && events == []
    {
      questions, answers, currentSpec, userDescription, events := [], [], None, "", [];
    }

    /** startClarification: new description and questions, answers cleared; the spec is kept. */
    method StartClarification(description: string)
      modifies this
      ensures Valid()
      ensures userDescription == description && answers == []
      ensures questions == GenerateQuestions(description)
      ensures currentSpec == old(currentSpec)
      ensures events == old(events) + [QuestionsGenerated(questions)]
    {
      userDescription := description;
      answers := [];
      questions := GenerateQuestions(description);
      events := events + [QuestionsGenerated(questions)];
    }

    /** submitAnswer: replace this question's answer, then rebuild the spec. */
    method SubmitAnswer(a: Answer)
      requires Valid()
      modifies this
      ensures Valid()
      ensures answers == Submit(old(answers), a)
      ensures currentSpec == Some(SpecFrom(userDescription, answers))
      ensures questions == old(questions) && userDescription == old(userDescription) && events == old(events)
    {
      SubmitKeepsOnePerQuestion(answers, a);
      answers := Without(answers, a.questionId) + [a];
      currentSpec := Some(SpecFrom(userDescription, answers));
    }

    /** confirmSpec: marks the spec confirmed and announces it; nothing without a spec. */
    method ConfirmSpec()
      modifies this
      ensures old(currentSpec).None? ==> currentSpec == None && events == old(events)
      ensures old(currentSpec).Some? ==>
        && currentSpec == Some(old(currentSpec).value.(confirmed := true))
        && events == old(events) + [SpecConfirmed(currentSpec.value)]
      ensures questions == old(questions) && answers == old(answers) && userDescription == old(userDescription)
    {
      if currentSpec.Some? {
        currentSpec := Some(currentSpec.value.(confirmed := true));
        events := events + [SpecConfirmed(currentSpec.value)];
      }
    }

    function GetCurrentSpec(): (r: Option<ProjectSpec>)
      reads this
      ensures r == currentSpec
    {
      currentSpec
    }

    function GetQuestions(): (r: seq<Question>)
      reads this
      ensures r == questions
    {
      questions
    }

    function GetAnswers(): (r: seq<Answer>)
      reads this
      ensures r == answers
    {
      answers
    }
  }
}
