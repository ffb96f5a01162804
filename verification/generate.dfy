/** The letter and phone-script generator (app/api/generate/route.ts): the
    request's fields are turned into a prompt for a language model, with a
    tone chosen from the sentiment and an excerpt of the article whose
    length depends on the mode; when the primary model fails with a
    "not found" error the same prompt goes to the fallback model. The model
    call is an input: what each model returns for a prompt. */
module Generate {
  import opened JsValues
  import opened Text

  /** The fields of the JSON body; each may be absent, `null` or a string. */
  datatype Fields = Fields(
    articleTitle: Val, articleText: Val, sentiment: Val, action: Val, personalContext: Val,
    mode: Val, userName: Val, userCity: Val, recipientName: Val, recipientRole: Val, recipientLevel: Val)

  /** The request body: not parseable as JSON (with the parse error's
      message), or its fields. */
  datatype RequestBody = Unparsable(message: Val) | Parsed(fields: Fields)

  /** What one `generateContent` call gives: the generated text, or an
      error, with its `message` property. */
  datatype Generation = Generated(text: string) | Failed(message: Val)

  datatype GenBody = Letter(text: string) | Failure(error: Val)
  datatype GenResponse = GenResponse(status: nat, body: GenBody)

  const PrimaryModel := "gemini-2.5-flash"
  const FallbackModel := "gemini-1.5-flash"
  const BothFailed := "Primary (2.5) and Fallback (1.5) failed. Original error: "

  // ---------------------------------------------------------------- tone

  /** The stance the prompt asks for: one per known sentiment, "professional
      and firm" for any other value. */
  function ToneInstruction(sentiment: Val): (r: string)
    ensures sentiment == Str("concerned") <==> r == "worried and urgent"
    ensures sentiment == Str("support") <==> r == "enthusiastic and grateful"
    ensures sentiment == Str("angry") <==> r == "stern and disappointed"
    ensures sentiment !in {Str("concerned"), Str("support"), Str("angry")} <==> r == "professional and firm"
  {
    if sentiment == Str("angry") then "stern and disappointed"
    else if sentiment == Str("support") then "enthusiastic and grateful"
    else if sentiment == Str("concerned") then "worried and urgent"
    else "professional and firm"
  }

  // ------------------------------------------------------------- excerpt

  predicate IsPhone(mode: Val) {
    mode == Str("phone")
  }

  /** How much of the article the prompt embeds. */
  function ExcerptLimit(mode: Val): (r: nat)
    ensures IsPhone(mode) <==> r == 3000
    ensures !IsPhone(mode) <==> r == 4000
  {
    if IsPhone(mode) then 3000 else 4000
  }

  /** `s.substring(0, n)`: the first `n` characters, or all of a shorter text. */
  function Prefix(s: string, n: nat): (r: string)
    ensures r <= s
    ensures |r| <= n
    ensures |s| <= n ==> r == s
    ensures |s| > n ==> |r| == n
  {
    if |s| <= n then s else s[..n]
  }

  // -------------------------------------------------------------- action

  /** `s.replace(from, to)` with a one-character pattern: only the first
      occurrence is replaced. */
  function ReplaceFirst(s: string, from: char, to: char): (r: string)
    ensures |r| == |s|
    ensures from !in s ==> r == s
  {
    if s == [] then []
    else if s[0] == from then [to] + s[1..]
    else [s[0]] + ReplaceFirst(s[1..], from, to)
  }

  /** Only the first occurrence changes: what precedes it and everything
      after it, later occurrences included, are kept. */
  lemma {:induction false} ReplaceOnlyFirst(a: string, from: char, to: char, b: string)
    requires from !in a
    ensures ReplaceFirst(a + [from] + b, from, to) == a + [to] + b
  {
    var s := a + [from] + b;
    if a == [] {
      assert s == [from] + b;
      assert s[1..] == b;
    } else {
      assert a[0] in a;
      assert s[0] == a[0];
      assert s[1..] == a[1..] + [from] + b;
      assert from !in a[1..] by {
        assert forall c :: c in a[1..] ==> c in a;
      }
      ReplaceOnlyFirst(a[1..], from, to, b);
      assert ReplaceFirst(s, from, to) == [a[0]] + ReplaceFirst(s[1..], from, to);
      assert [a[0]] + (a[1..] + [to] + b) == a + [to] + b;
    }
  }

  /** `personalContext || "None"` */
  function ContextText(context: Val): (r: string)
    ensures !Truthy(context) ==> r == "None"
    ensures Truthy(context) ==> r == context.s
  {
    ToText(Or(context, Str("None")))
  }

  // -------------------------------------------------------------- prompt

  const Indent := "          "
  const Closing := "        "

  /** A template literal whose text starts on the line after the backtick:
      each line after a line break, then the closing indentation. */
  function Render(lines: seq<string>): string {
    if lines == [] then "\n" + Closing else "\n" + lines[0] + Render(lines[1..])
  }

  /** Every line appears in the rendered text. */
  lemma {:induction false} RenderContainsLine(lines: seq<string>, i: nat)
    requires i < |lines|
    ensures Contains(Render(lines), lines[i])
  {
    var rest := Render(lines[1..]);
    if i == 0 {
      ContainsInMiddle("\n", lines[0], rest);
    } else {
      RenderContainsLine(lines[1..], i - 1);
      assert Render(lines) == ("\n" + lines[0]) + rest + "";
      ContainsInMiddle("\n" + lines[0], rest, "");
      ContainsWithin(Render(lines), rest, lines[i]);
    }
  }

  /** A line of the list appears in the rendered text. */
  lemma MemberInPrompt(lines: seq<string>, line: string)
    requires line in lines
    ensures Contains(Render(lines), line)
  {
    var i :| 0 <= i < |lines| && lines[i] == line;
    RenderContainsLine(lines, i);
  }

  /** A part of a line appears in the rendered text. */
  lemma PartInPrompt(lines: seq<string>, a: string, t: string, b: string)
    requires a + t + b in lines
    ensures Contains(Render(lines), t)
  {
    MemberInPrompt(lines, a + t + b);
    ContainsInMiddle(a, t, b);
    ContainsWithin(Render(lines), a + t + b, t);
  }

  /** The end of a line appears in the rendered text. */
  lemma EndInPrompt(lines: seq<string>, a: string, t: string)
    requires a + t in lines
    ensures Contains(Render(lines), t)
  {
    assert a + t + "" == a + t;
    PartInPrompt(lines, a, t, "");
  }

  // The fixed lines and line openings of the two prompts.
  const UserInfo: string := Indent + "User Info:"
  const RequirementsHeading: string := Indent + "Requirements:"
  const PhoneTaskHead: string := Indent + "Task: Write a short phone script for a constituent calling "
  const PhoneSourceHeading: string := Indent + "Source Text:"
  const KeepShort: string := Indent + "- Keep it under 45 seconds to read."
  const BeClear: string := Indent + "- Be clear about the specific action requested."
  const LetterTaskHead: string := Indent + "Task: Write a formal constituent letter to "
  const LetterSourceHeading: string := Indent + "Source Text (Use this for facts):"

  // The lines of the two prompts, each as its own function.
  function TopicLine(f: Fields): string { Indent + "Topic: " + ToText(f.articleTitle) }
  function NameLine(f: Fields): string { Indent + "Name: " + ToText(f.userName) }
  function CityLine(f: Fields): string { Indent + "City: " + ToText(f.userCity) }
  function StanceLine(f: Fields): string { Indent + ("Stance: " + ToneInstruction(f.sentiment)) }
  function ActionLine(action: string): string { Indent + ("Desired Action: " + action) }
  function ContextLine(f: Fields): string { Indent + ("Personal Context: " + ContextText(f.personalContext)) }
  function ExcerptLine(excerpt: string): string { Indent + excerpt }

  function PhoneTask(f: Fields): string {
    PhoneTaskHead + ToText(f.recipientRole) + " "
      + ToText(f.recipientName) + "'s office (" + ToText(f.recipientLevel) + ")."
  }

  function PhoneOpening(f: Fields): string {
    Indent + "- Start with " + Greeting(f)
  }

  function Greeting(f: Fields): string {
    "\"Hi, my name is " + ToText(f.userName) + " and I am a constituent from " + ToText(f.userCity) + ".\""
  }

  /** The lines both prompts have after the task line. */
  function RequestLines(f: Fields, action: string): seq<string> {
    [ TopicLine(f), Indent, UserInfo, NameLine(f), CityLine(f), StanceLine(f),
      ActionLine(action), ContextLine(f) ]
  }

  /** The phone script's requirements. */
  function PhoneRules(f: Fields): seq<string> {
    [ PhoneOpening(f),
      KeepShort, BeClear ]
  }

  /** The phone-script prompt, line by line. */
  function PhoneLines(f: Fields, action: string, excerpt: string): seq<string> {
    [PhoneTask(f)] + RequestLines(f, action) + PhoneSource(excerpt) + PhoneRules(f)
  }

  /** The phone prompt's source block, ending with the requirements heading. */
  function PhoneSource(excerpt: string): seq<string> {
    ["", PhoneSourceHeading, ExcerptLine(excerpt), "", RequirementsHeading]
  }

  function LetterTask(f: Fields): string {
    LetterTaskHead + ToText(f.recipientRole) + " "
      + ToText(f.recipientName) + " (" + ToText(f.recipientLevel) + ")."
  }

  function SalutationLine(f: Fields): string {
    Indent + "- CRITICAL: Address the letter to " + Salutation(f) + "."
  }

  function Salutation(f: Fields): string {
    "\"The Honorable " + ToText(f.recipientName) + "\""
  }

  function SignOffLine(f: Fields): string {
    Indent + "- Sign off with " + SignOff(f) + "."
  }

  function SignOff(f: Fields): string {
    "\"Sincerely, " + ToText(f.userName) + "\""
  }

  const FormalTone: string := Indent + "- Use a formal, respectful tone."
  const StatePosition: string := Indent + "- Clearly state the constituent's position and the specific action requested."
  const IncludeFacts: string := Indent + "- Include specific facts from the source text to back up the argument."
  const NoPlaceholders: string :=
    Indent + "- Do NOT include placeholders like [Date] or [Address] at the top, just start with the salutation."

  /** The letter's requirements. */
  function LetterRules(f: Fields): seq<string> {
    [ FormalTone, SalutationLine(f), StatePosition, IncludeFacts, SignOffLine(f), NoPlaceholders ]
  }

  /** The formal letter prompt (postal and email modes), line by line. */
  function LetterLines(f: Fields, action: string, excerpt: string): seq<string> {
    [LetterTask(f)] + RequestLines(f, action) + LetterSource(excerpt) + LetterRules(f)
  }

  /** The letter prompt's source block, ending with the requirements heading. */
  function LetterSource(excerpt: string): seq<string> {
    [Indent, LetterSourceHeading, ExcerptLine(excerpt), "", RequirementsHeading]
  }

  /** Every line of a part is a line of the whole. */
  lemma InParts(task: seq<string>, request: seq<string>, source: seq<string>, rules: seq<string>)
    ensures forall x :: x in request ==> x in task + request + source + rules
    ensures forall x :: x in source ==> x in task + request + source + rules
    ensures forall x :: x in rules ==> x in task + request + source + rules
  {
  }

  /** The lines of the prompt for a request whose `action` and `articleText`
      are strings. */
  function PromptLines(f: Fields): seq<string>
    requires f.action.Str? && f.articleText.Str?
  {
    var action := ReplaceFirst(f.action.s, '_', ' ');
    var excerpt := Prefix(f.articleText.s, ExcerptLimit(f.mode));
    if IsPhone(f.mode) then PhoneLines(f, action, excerpt) else LetterLines(f, action, excerpt)
  }

  /** The request lines are lines of the prompt in both modes. */
  lemma RequestInPrompt(f: Fields)
    requires f.action.Str? && f.articleText.Str?
    ensures var action := ReplaceFirst(f.action.s, '_', ' ');
      forall line :: line in RequestLines(f, action) ==> line in PromptLines(f)
  {
    var action := ReplaceFirst(f.action.s, '_', ' ');
    var excerpt := Prefix(f.articleText.s, ExcerptLimit(f.mode));
    if IsPhone(f.mode) {
      InParts([PhoneTask(f)], RequestLines(f, action), PhoneSource(excerpt), PhoneRules(f));
    } else {
      InParts([LetterTask(f)], RequestLines(f, action), LetterSource(excerpt), LetterRules(f));
    }
  }

  /** The excerpt line is a line of the prompt in both modes. */
  lemma ExcerptInPrompt(f: Fields)
    requires f.action.Str? && f.articleText.Str?
    ensures ExcerptLine(Prefix(f.articleText.s, ExcerptLimit(f.mode))) in PromptLines(f)
  {
    var action := ReplaceFirst(f.action.s, '_', ' ');
    var excerpt := Prefix(f.articleText.s, ExcerptLimit(f.mode));
    if IsPhone(f.mode) {
      InParts([PhoneTask(f)], RequestLines(f, action), PhoneSource(excerpt), PhoneRules(f));
      assert PhoneSource(excerpt)[2] == ExcerptLine(excerpt);
    } else {
      InParts([LetterTask(f)], RequestLines(f, action), LetterSource(excerpt), LetterRules(f));
      assert LetterSource(excerpt)[2] == ExcerptLine(excerpt);
    }
  }

  /** The phone requirements are lines of a phone prompt. */
  lemma PhoneRulesInPrompt(f: Fields)
    requires f.action.Str? && f.articleText.Str? && IsPhone(f.mode)
    ensures forall line :: line in PhoneRules(f) ==> line in PromptLines(f)
  {
    var action := ReplaceFirst(f.action.s, '_', ' ');
    var excerpt := Prefix(f.articleText.s, ExcerptLimit(f.mode));
    InParts([PhoneTask(f)], RequestLines(f, action), PhoneSource(excerpt), PhoneRules(f));
  }

  /** The letter requirements are lines of a letter prompt. */
  lemma LetterRulesInPrompt(f: Fields)
    requires f.action.Str? && f.articleText.Str? && !IsPhone(f.mode)
    ensures forall line :: line in LetterRules(f) ==> line in PromptLines(f)
  {
    var action := ReplaceFirst(f.action.s, '_', ' ');
    var excerpt := Prefix(f.articleText.s, ExcerptLimit(f.mode));
    InParts([LetterTask(f)], RequestLines(f, action), LetterSource(excerpt), LetterRules(f));
  }

  /** The prompt, or `None` when building it throws because `action` or
      `articleText` is not a string (`replace` or `substring` of `undefined`
      or `null`). */
  function BuildPrompt(f: Fields): (r: Option<string>)
    ensures r.Some? <==> f.action.Str? && f.articleText.Str?
    ensures r.Some? ==> |r.value| > 0 && r.value[0] == '\n'
  {
    if f.action.Str? && f.articleText.Str? then Some(Render(PromptLines(f))) else None
  }

  /** The excerpt line embeds at most the mode's limit of the article, and
      the whole article when it is shorter. */
  lemma PromptCarriesExcerpt(f: Fields)
    requires f.action.Str? && f.articleText.Str?
    ensures var excerpt := Prefix(f.articleText.s, ExcerptLimit(f.mode));
      && Contains(BuildPrompt(f).value, Indent + excerpt)
      && excerpt <= f.articleText.s
      && |excerpt| <= (if IsPhone(f.mode) then 3000 else 4000)
  {
    ExcerptInPrompt(f);
    MemberInPrompt(PromptLines(f), ExcerptLine(Prefix(f.articleText.s, ExcerptLimit(f.mode))));
  }

  /** A line of the request part, after its indentation, is in the prompt. */
  lemma RequestLineInPrompt(f: Fields, t: string)
    requires f.action.Str? && f.articleText.Str?
    requires Indent + t in RequestLines(f, ReplaceFirst(f.action.s, '_', ' '))
    ensures Contains(BuildPrompt(f).value, t)
  {
    RequestInPrompt(f);
    EndInPrompt(PromptLines(f), Indent, t);
  }

  /** The stance, the action (first underscore replaced) and the personal
      context ("None" when missing or empty) are in every prompt. */
  lemma PromptCarriesRequest(f: Fields)
    requires f.action.Str? && f.articleText.Str?
    ensures Contains(BuildPrompt(f).value, "Stance: " + ToneInstruction(f.sentiment))
    ensures Contains(BuildPrompt(f).value, "Desired Action: " + ReplaceFirst(f.action.s, '_', ' '))
    ensures Contains(BuildPrompt(f).value, "Personal Context: " + ContextText(f.personalContext))
  {
    var request := RequestLines(f, ReplaceFirst(f.action.s, '_', ' '));
    assert request[5] == StanceLine(f);
    RequestLineInPrompt(f, "Stance: " + ToneInstruction(f.sentiment));
    assert request[6] == ActionLine(ReplaceFirst(f.action.s, '_', ' '));
    RequestLineInPrompt(f, "Desired Action: " + ReplaceFirst(f.action.s, '_', ' '));
    assert request[7] == ContextLine(f);
    RequestLineInPrompt(f, "Personal Context: " + ContextText(f.personalContext));
  }

  /** A letter prompt requires the salutation with the recipient's name. */
  lemma LetterHasSalutation(f: Fields)
    requires f.action.Str? && f.articleText.Str? && !IsPhone(f.mode)
    ensures Contains(BuildPrompt(f).value, Salutation(f))
  {
    LetterRulesInPrompt(f);
    assert LetterRules(f)[1] == SalutationLine(f);
    PartInPrompt(PromptLines(f), Indent + "- CRITICAL: Address the letter to ", Salutation(f), ".");
  }

  /** A letter prompt requires the sign-off with the user's name. */
  lemma LetterHasSignOff(f: Fields)
    requires f.action.Str? && f.articleText.Str? && !IsPhone(f.mode)
    ensures Contains(BuildPrompt(f).value, SignOff(f))
  {
    LetterRulesInPrompt(f);
    assert LetterRules(f)[4] == SignOffLine(f);
    PartInPrompt(PromptLines(f), Indent + "- Sign off with ", SignOff(f), ".");
  }

  /** A letter prompt requires the salutation and the sign-off with the
      recipient's and the user's names. */
  lemma LetterRequirements(f: Fields)
    requires f.action.Str? && f.articleText.Str? && !IsPhone(f.mode)
    ensures Contains(BuildPrompt(f).value, "\"The Honorable " + ToText(f.recipientName) + "\"")
    ensures Contains(BuildPrompt(f).value, "\"Sincerely, " + ToText(f.userName) + "\"")
  {
    LetterHasSalutation(f);
    LetterHasSignOff(f);
  }

  /** A phone prompt requires the script to open with the caller's name and city. */
  lemma PhoneRequirements(f: Fields)
    requires f.action.Str? && f.articleText.Str? && IsPhone(f.mode)
    ensures Contains(BuildPrompt(f).value,
      "\"Hi, my name is " + ToText(f.userName) + " and I am a constituent from " + ToText(f.userCity) + ".\"")
  {
    PhoneRulesInPrompt(f);
    assert PhoneRules(f)[0] == PhoneOpening(f);
    EndInPrompt(PromptLines(f), Indent + "- Start with ", Greeting(f));
  }

  // ------------------------------------------------------------- handler

  /** `error.message?.includes('404') || error.message?.includes('not found')` */
  predicate ShouldFallback(message: Val) {
    message.Str? && (Contains(message.s, "404") || Contains(message.s, "not found"))
  }

  /** The error path: the fallback model, with the prompt built so far (empty
      when the error came before the prompt), for a "not found" error; the
      error's message otherwise. */
  function Recover(message: Val, prompt: string, generate: (string, string) -> Generation): (r: GenResponse)
    ensures ShouldFallback(message) && generate(FallbackModel, prompt).Generated? ==>
      r == GenResponse(200, Letter(generate(FallbackModel, prompt).text))
    ensures ShouldFallback(message) && generate(FallbackModel, prompt).Failed? ==>
      r == GenResponse(500, Failure(Str(BothFailed + ToText(message))))
    ensures !ShouldFallback(message) ==> r == GenResponse(500, Failure(message))
  {
    if ShouldFallback(message) then
      match generate(FallbackModel, prompt)
      case Generated(text) => GenResponse(200, Letter(text))
      case Failed(_) => GenResponse(500, Failure(Str(BothFailed + ToText(message))))
    else GenResponse(500, Failure(message))
  }

  /** `POST`. `typeError` is the message of the error the runtime throws when
      `action` or `articleText` is not a string. */
  function Handle(body: RequestBody, typeError: Val, generate: (string, string) -> Generation): (r: GenResponse)
    ensures body.Unparsable? ==> r == Recover(body.message, "", generate)
    ensures body.Parsed? && BuildPrompt(body.fields).None? ==> r == Recover(typeError, "", generate)
    ensures body.Parsed? && BuildPrompt(body.fields).Some? ==>
      var prompt := BuildPrompt(body.fields).value;
      match generate(PrimaryModel, prompt)
      case Generated(text) => r == GenResponse(200, Letter(text))
      case Failed(message) => r == Recover(message, prompt, generate)
  {
    match body
    case Unparsable(message) => Recover(message, "", generate)
    case Parsed(f) =>
      match BuildPrompt(f)
      case None => Recover(typeError, "", generate)
      case Some(prompt) =>
        match generate(PrimaryModel, prompt)
        case Generated(text) => GenResponse(200, Letter(text))
        case Failed(message) => Recover(message, prompt, generate)
  }

  /** A failed model call or a request error, turned into a response, is a
      letter only when the fallback model produced it. */
  lemma RecoverFacts(message: Val, prompt: string, generate: (string, string) -> Generation)
    ensures Recover(message, prompt, generate).status == 200 <==> Recover(message, prompt, generate).body.Letter?
    ensures Recover(message, prompt, generate).body.Letter? ==>
      generate(FallbackModel, prompt) == Generated(Recover(message, prompt, generate).body.text)
  {
  }

  /** The response succeeds exactly when it carries a letter, and every
      letter is a text one of the two models produced. */
  lemma SuccessMeansGenerated(body: RequestBody, typeError: Val, generate: (string, string) -> Generation)
    ensures Handle(body, typeError, generate).status == 200 <==> Handle(body, typeError, generate).body.Letter?
    ensures Handle(body, typeError, generate).body.Letter? ==>
      exists prompt :: generate(PrimaryModel, prompt) == Generated(Handle(body, typeError, generate).body.text)
                    || generate(FallbackModel, prompt) == Generated(Handle(body, typeError, generate).body.text)
  {
    match body
    case Unparsable(message) =>
      RecoverFacts(message, "", generate);
    case Parsed(f) =>
      match BuildPrompt(f)
      case None =>
        RecoverFacts(typeError, "", generate);
      case Some(prompt) =>
        match generate(PrimaryModel, prompt)
        case Generated(text) =>
        case Failed(message) =>
          RecoverFacts(message, prompt, generate);
  }

  /** The fallback model is consulted only after a "not found" error: two
      model services that agree on the primary model give the same response
      whenever the primary model's error is another one. */
  lemma FallbackOnlyWhenNotFound(f: Fields, typeError: Val, g1: (string, string) -> Generation, g2: (string, string) -> Generation)
    requires f.action.Str? && f.articleText.Str?
    requires g1(PrimaryModel, BuildPrompt(f).value) == g2(PrimaryModel, BuildPrompt(f).value)
    requires !(g1(PrimaryModel, BuildPrompt(f).value).Failed? && ShouldFallback(g1(PrimaryModel, BuildPrompt(f).value).message))
    ensures Handle(Parsed(f), typeError, g1) == Handle(Parsed(f), typeError, g2)
  {
  }

  /** After a "not found" error the fallback model gets the very prompt the
      primary model got, and its text is returned as the letter. */
  lemma FallbackGetsSamePrompt(f: Fields, typeError: Val, generate: (string, string) -> Generation)
    requires f.action.Str? && f.articleText.Str?
    requires var p := BuildPrompt(f).value;
      generate(PrimaryModel, p).Failed? && ShouldFallback(generate(PrimaryModel, p).message)
      && generate(FallbackModel, p).Generated?
    ensures Handle(Parsed(f), typeError, generate)
         == GenResponse(200, Letter(generate(FallbackModel, BuildPrompt(f).value).text))
  {
  }

  /** A message mentioning 404 triggers the fallback. */
  lemma NotFoundCodeFallsBack(before: string, after: string)
    ensures ShouldFallback(Str(before + "404" + after))
  {
    ContainsInMiddle(before, "404", after);
  }

  /** An error with no message never triggers the fallback. */
  lemma NoMessageNoFallback(prompt: string, generate: (string, string) -> Generation)
    ensures Recover(Undefined, prompt, generate) == GenResponse(500, Failure(Undefined))
  {
  }
}
