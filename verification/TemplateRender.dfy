/** Around the substitution: the normalised context, the choice of a template and the rendered stages. */
module TemplateRender {
  import opened Json
  import opened StageData
  import opened TokenSubstitution
  import opened TokenValues
  import FunnelRows

  // ----- sanitize -----

  function TrimStart(s: string): string {
    if s != "" && IsWhite(s[0]) then TrimStart(s[1..]) else s
  }

  function TrimEnd(s: string): string {
    if s != "" && IsWhite(s[|s| - 1]) then TrimEnd(s[..|s| - 1]) else s
  }

  predicate Dangerous(c: char) {
    c in "<>\"'`" || '\U{200B}' <= c <= '\U{200F}' || '\U{202A}' <= c <= '\U{202E}'
  }

  function Strip(s: string): string {
    if s == "" then "" else (if Dangerous(s[0]) then "" else [s[0]]) + Strip(s[1..])
  }

  function Cap(s: string, max: nat): string {
    if |s| <= max then s else s[..max]
  }

  function Sanitize(v: Option<Json>): (s: string)
    ensures |s| <= VALUE_MAX
  {
    match v
    case Some(Str(s)) => Cap(Strip(TrimEnd(TrimStart(s))), VALUE_MAX)
    case _ => ""
  }

  // ----- normalizeContext -----

  /** `ctx[snake] ?? ctx[camel]` */
  function ReadString(ctx: Json, snake: string, camel: string): (s: string)
    ensures |s| <= VALUE_MAX
  {
    match ctx.Get(snake)
    case Some(Null) => Sanitize(ctx.Get(camel))
    case None => Sanitize(ctx.Get(camel))
    case v => Sanitize(v)
  }

  function OrElse(s: string, fallback: string): string {
    if s == "" then fallback else s
  }

  predicate IsSeparator(c: char) {
    IsWhite(c) || c in ",.;:!?"
  }

  predicate IsLetter(c: char) {
    'a' <= c <= 'z' || 'A' <= c <= 'Z'
  }

  predicate IsNoun(s: string) {
    |s| >= 3 && IsLetter(s[0]) && forall c | c in s :: IsLetter(c) || c == '-'
  }

  function PieceLength(s: string): (n: nat)
    ensures n <= |s|
  {
    if s == "" || IsSeparator(s[0]) then 0 else 1 + PieceLength(s[1..])
  }

  function FirstNoun(s: string): Option<string>
    decreases |s|
  {
    if s == "" then None
    else
      var n := PieceLength(s);
      if n == 0 then FirstNoun(s[1..])
      else if IsNoun(s[..n]) then Some(s[..n])
      else FirstNoun(s[n..])
  }

  const NO_PRODUCT := "your product/service"

  function LowerAll(s: string): string {
    seq(|s|, i requires 0 <= i < |s| => Lower(s[i]))
  }

  function DeriveProduct(description: string): string {
    if IsBlank(description) then NO_PRODUCT
    else match FirstNoun(description)
      case Some(noun) => LowerAll(noun)
      case None => NO_PRODUCT
  }

  function Normalize(ctx: Json): Context {
    var product := DeriveProduct(ReadString(ctx, "business_description", "businessDescription"));
    Context(OrElse(ReadString(ctx, "business_name", "businessName"), "your business"),
            product, product,
            OrElse(ReadString(ctx, "target_customer", "targetCustomer"), "your ideal customer"),
            OrElse(Sanitize(ctx.Get("discoveryChannel")), "your main channel"))
  }

  lemma {:induction false} FirstNounIsShort(s: string)
    ensures FirstNoun(s).Some? ==> IsNoun(FirstNoun(s).value) && |FirstNoun(s).value| <= |s|
    decreases |s|
  {
    if s != "" {
      var n := PieceLength(s);
      if n == 0 {
        FirstNounIsShort(s[1..]);
      } else if !IsNoun(s[..n]) {
        FirstNounIsShort(s[n..]);
      }
    }
  }

  lemma NoDollarIsInert(value: string)
    requires BraceFree(value) && '$' !in value
    ensures Inert(value)
  {
    NoDollarIsPairFree(value);
  }

  lemma LoweredNoun(noun: string)
    requires IsNoun(noun)
    ensures Inert(LowerAll(noun)) && Solid(LowerAll(noun))
  {
    forall c | c in LowerAll(noun)
      ensures c != '{' && c != '}' && c != '$' && c != '`' && c != '\''
    {
      var i :| 0 <= i < |noun| && LowerAll(noun)[i] == c;
      assert noun[i] in noun;
    }
    NoDollarIsInert(LowerAll(noun));
  }

  lemma DerivedProductIsInert(description: string)
    requires |description| <= VALUE_MAX
    ensures Inert(DeriveProduct(description)) && 0 < |DeriveProduct(description)| <= VALUE_MAX
  {
    DerivedProductIsSolid(description);
  }

  /** Non-empty and without the two quotes that could turn into an empty match context. */
  predicate Solid(value: string) {
    value != "" && '`' !in value && '\'' !in value
  }

  lemma DerivedProductIsSolid(description: string)
    ensures Solid(DeriveProduct(description)) && Inert(DeriveProduct(description))
    ensures |DeriveProduct(description)| <= |description| || DeriveProduct(description) == NO_PRODUCT
  {
    FirstNounIsShort(description);
    if !IsBlank(description) && FirstNoun(description).Some? {
      LoweredNoun(FirstNoun(description).value);
    } else {
      FallbackProduct(DeriveProduct(description));
      NoDollarIsInert(DeriveProduct(description));
    }
  }

  lemma FallbackProduct(value: string)
    requires value == NO_PRODUCT
    ensures BraceFree(value) && '$' !in value && Solid(value)
  {
  }

  /** Every normalised value is non-empty and at most 200 long; the context is inert exactly when the
      three values taken over from the user are free of braces and dollar patterns. */
  lemma NormalizedContext(ctx: Json)
    ensures BoundedContext(Normalize(ctx))
    ensures var c := Normalize(ctx);
            InertContext(c) <==> Inert(c.businessName) && Inert(c.targetCustomer) && Inert(c.discoveryChannel)
  {
    NormalizedProductIsInert(ctx);
    OrElseIsBounded(ReadString(ctx, "business_name", "businessName"), "your business");
    OrElseIsBounded(ReadString(ctx, "target_customer", "targetCustomer"), "your ideal customer");
    OrElseIsBounded(Sanitize(ctx.Get("discoveryChannel")), "your main channel");
  }

  lemma OrElseIsBounded(s: string, fallback: string)
    requires |s| <= VALUE_MAX && 0 < |fallback| <= VALUE_MAX
    ensures 0 < |OrElse(s, fallback)| <= VALUE_MAX
  {
  }

  // ----- selectTemplate -----

  datatype TemplateStage = TemplateStage(position: int, channel: string, explanation: string,
                                         actionPrompt: string, tasks: seq<string>)
  datatype TemplateDefinition = TemplateDefinition(industry: string, businessType: seq<string>,
                                                   channelMatch: seq<string>, stages: seq<TemplateStage>)

  predicate Among(names: seq<string>, key: string) {
    exists n | n in names :: LowerAll(n) == key
  }

  function Find(library: seq<TemplateDefinition>, test: TemplateDefinition -> bool): Option<TemplateDefinition> {
    if library == [] then None else if test(library[0]) then Some(library[0]) else Find(library[1..], test)
  }

  /** t is the first entry that passes the test. */
  ghost predicate IsFirst(library: seq<TemplateDefinition>, test: TemplateDefinition -> bool, t: TemplateDefinition) {
    exists i | 0 <= i < |library| ::
      library[i] == t && test(t) && forall j | 0 <= j < i :: !test(library[j])
  }

  lemma {:induction false} FindFinds(library: seq<TemplateDefinition>, test: TemplateDefinition -> bool)
    ensures Find(library, test).Some? <==> exists t | t in library :: test(t)
    ensures Find(library, test).Some? ==> IsFirst(library, test, Find(library, test).value)
  {
    if library != [] {
      FindFinds(library[1..], test);
      assert library == [library[0]] + library[1..];
      if !test(library[0]) && Find(library[1..], test).Some? {
        var t := Find(library[1..], test).value;
        var i :| 0 <= i < |library[1..]| && library[1..][i] == t && forall j | 0 <= j < i :: !test(library[1..][j]);
        forall j | 0 <= j < i + 1
          ensures !test(library[j])
        {
          assert j > 0 ==> library[j] == library[1..][j - 1];
        }
        assert library[i + 1] == t;
      } else if test(library[0]) {
        assert library[0] == library[0];
      }
    }
  }

  predicate MatchesBoth(t: TemplateDefinition, business: string, channel: string) {
    Among(t.businessType, business) && Among(t.channelMatch, channel)
  }

  function Select(library: seq<TemplateDefinition>, fallback: TemplateDefinition, businessType: string,
                  channelName: string): TemplateDefinition
  {
    var business, channel := LowerAll(businessType), LowerAll(channelName);
    if business == "" then fallback
    else
      var byBoth := if channel == "" then None else Find(library, t => MatchesBoth(t, business, channel));
      var byBusiness := Find(library, (t: TemplateDefinition) => Among(t.businessType, business));
      var byIndustry := Find(library, (t: TemplateDefinition) => LowerAll(t.industry) == business);
      if byBoth.Some? then byBoth.value
      else if byBusiness.Some? then byBusiness.value
      else if byIndustry.Some? then byIndustry.value
      else fallback
  }

  /** The first entry that matches business and channel; without one the first that matches the
      business; without one the first of that industry; otherwise the default. */
  lemma SelectionPriority(library: seq<TemplateDefinition>, fallback: TemplateDefinition, businessType: string,
                          channelName: string)
    ensures var t := Select(library, fallback, businessType, channelName);
            var business, channel := LowerAll(businessType), LowerAll(channelName);
            if business == "" then t == fallback
            else if channel != "" && exists u | u in library :: MatchesBoth(u, business, channel) then
              IsFirst(library, u => MatchesBoth(u, business, channel), t)
            else if exists u | u in library :: Among(u.businessType, business) then
              IsFirst(library, (u: TemplateDefinition) => Among(u.businessType, business), t)
            else if exists u | u in library :: LowerAll(u.industry) == business then
              IsFirst(library, (u: TemplateDefinition) => LowerAll(u.industry) == business, t)
            else t == fallback
  {
    var business, channel := LowerAll(businessType), LowerAll(channelName);
    FindFinds(library, t => MatchesBoth(t, business, channel));
    FindFinds(library, (t: TemplateDefinition) => Among(t.businessType, business));
    FindFinds(library, (t: TemplateDefinition) => LowerAll(t.industry) == business);
  }

  // ----- renderStage -----

  function SpaceAt(s: string): (n: nat)
    ensures n <= |s| && (n < |s| ==> s[n] == ' ')
  {
    if s == "" || s[0] == ' ' then 0 else 1 + SpaceAt(s[1..])
  }

  /** `s.split(' ')` */
  function Split(s: string): (pieces: seq<string>)
    ensures pieces != []
    decreases |s|
  {
    var n := SpaceAt(s);
    if n == |s| then [s] else [s[..n]] + Split(s[n + 1..])
  }

  /** `pieces.join(' ')` */
  function Join(pieces: seq<string>): string {
    if pieces == [] then "" else if |pieces| == 1 then pieces[0] else pieces[0] + " " + Join(pieces[1..])
  }

  function FirstWords(s: string, n: nat): string {
    Join(if n < |Split(s)| then Split(s)[..n] else Split(s))
  }

  lemma {:induction false} SplitJoins(s: string)
    ensures Join(Split(s)) == s
    decreases |s|
  {
    var k := SpaceAt(s);
    if k < |s| {
      var rest := Split(s[k + 1..]);
      SplitJoins(s[k + 1..]);
      assert Split(s)[1..] == rest && s == s[..k] + " " + s[k + 1..];
    }
  }

  lemma {:induction false} JoinOfPrefix(pieces: seq<string>, n: nat)
    requires 1 <= n <= |pieces|
    ensures Join(pieces[..n]) <= Join(pieces)
    decreases n
  {
    if n > 1 {
      JoinOfPrefix(pieces[1..], n - 1);
      assert pieces[..n][1..] == pieces[1..][..n - 1];
    } else {
      assert pieces[..1] == [pieces[0]];
    }
  }

  /** A space between any two pieces. */
  lemma {:induction false} JoinHasSpaces(pieces: seq<string>)
    requires pieces != []
    ensures |Join(pieces)| >= |pieces| - 1
  {
    if |pieces| > 1 {
      JoinHasSpaces(pieces[1..]);
    }
  }

  lemma FirstWordsIsPrefix(s: string, n: nat)
    requires n >= 1
    ensures FirstWords(s, n) <= s
    ensures |Split(s)| <= n ==> FirstWords(s, n) == s
    ensures |Split(s)| > n ==> |FirstWords(s, n)| >= n - 1
  {
    SplitJoins(s);
    if n < |Split(s)| {
      JoinOfPrefix(Split(s), n);
      JoinHasSpaces(Split(s)[..n]);
    }
  }

  function TaskName(text: string): string {
    Cap(FirstWords(text, 4), NAME_MAX)
  }

  /** A task's name is a prefix of its text of at most 50 characters, empty only for an empty text. */
  lemma TaskNameIsShortPrefix(text: string)
    ensures TaskName(text) <= text && |TaskName(text)| <= NAME_MAX
    ensures TaskName(text) == "" <==> text == ""
  {
    FirstWordsIsPrefix(text, 4);
  }

  function RenderText(raw: string, ctx: Context): string {
    if raw == "" then "" else Substitute(raw, ctx)
  }

  function RenderTask(raw: string, ctx: Context): TaskData {
    TaskData(TaskName(RenderText(raw, ctx)), RenderText(raw, ctx))
  }

  function RenderStage(stage: TemplateStage, ctx: Context): StageData {
    StageData(stage.position, RenderText(stage.channel, ctx), RenderText(stage.explanation, ctx),
              RenderText(stage.actionPrompt, ctx),
              seq(|stage.tasks|, i requires 0 <= i < |stage.tasks| => RenderTask(stage.tasks[i], ctx)))
  }

  function RenderTemplate(t: TemplateDefinition, ctx: Context): seq<StageData> {
    seq(|t.stages|, i requires 0 <= i < |t.stages| => RenderStage(t.stages[i], ctx))
  }

  /** Text made of brace-free literals and {{word}} tokens. */
  ghost predicate WellFormed(raw: string) {
    exists segs :: GoodSegments(segs) && Print(segs) == raw
  }

  /** Room for 200 more characters per token within `max`. */
  ghost predicate Fits(raw: string, max: nat) {
    exists segs :: GoodSegments(segs) && Print(segs) == raw && |raw| + VALUE_MAX * TokenCount(segs) <= max
  }

  ghost predicate GoodStage(stage: TemplateStage) {
    && 1 <= stage.position <= STAGE_COUNT
    && stage.channel != "" && WellFormed(stage.channel)
    && Fits(stage.explanation, MAX_FIELD_LENGTH) && Fits(stage.actionPrompt, MAX_FIELD_LENGTH)
    && |stage.tasks| == TASKS_MAX && forall t | t in stage.tasks :: t != "" && WellFormed(t)
  }

  ghost predicate GoodTemplate(t: TemplateDefinition) {
    && |t.stages| == STAGE_COUNT && (forall stage | stage in t.stages :: GoodStage(stage))
    && forall i, j | 0 <= i < j < |t.stages| :: t.stages[i].position != t.stages[j].position
  }

  /** Rendered text carries no brace at all and is empty only for an empty raw text. */
  lemma RenderedTextIsClean(raw: string, ctx: Context)
    requires WellFormed(raw) && InertContext(ctx) && BoundedContext(ctx)
    ensures BraceFree(RenderText(raw, ctx)) && (RenderText(raw, ctx) == "" <==> raw == "")
  {
    var segs :| GoodSegments(segs) && Print(segs) == raw;
    SubstituteIsSimultaneous(segs, ctx);
    SimultaneousBounds(segs, ctx);
  }

  lemma RenderedTextFits(raw: string, max: nat, ctx: Context)
    requires Fits(raw, max) && InertContext(ctx) && BoundedContext(ctx)
    ensures |RenderText(raw, ctx)| <= max
  {
    var segs :| GoodSegments(segs) && Print(segs) == raw && |raw| + VALUE_MAX * TokenCount(segs) <= max;
    SubstituteIsSimultaneous(segs, ctx);
    SimultaneousBounds(segs, ctx);
  }

  lemma RenderedStageIsFromSource(stage: TemplateStage, ctx: Context)
    requires GoodStage(stage) && InertContext(ctx) && BoundedContext(ctx)
    ensures SourceStage(RenderStage(stage, ctx))
  {
    RenderedTextIsClean(stage.channel, ctx);
    RenderedTextFits(stage.explanation, MAX_FIELD_LENGTH, ctx);
    RenderedTextFits(stage.actionPrompt, MAX_FIELD_LENGTH, ctx);
    var sd := RenderStage(stage, ctx);
    forall t | t in sd.tasks
      ensures t.name != "" && t.taskText != ""
    {
      var i :| 0 <= i < |sd.tasks| && sd.tasks[i] == t;
      assert stage.tasks[i] in stage.tasks;
      RenderedTextIsClean(stage.tasks[i], ctx);
      TaskNameIsShortPrefix(RenderText(stage.tasks[i], ctx));
    }
  }

  // ----- every context -----

  lemma {:induction false} StripRemoves(s: string)
    ensures forall c | c in Strip(s) :: !Dangerous(c)
  {
    if s != "" {
      StripRemoves(s[1..]);
    }
  }

  predicate SolidContext(ctx: Context) {
    Solid(ctx.businessName) && Solid(ctx.product) && Solid(ctx.service) && Solid(ctx.targetCustomer)
    && Solid(ctx.discoveryChannel)
  }

  lemma SanitizedHasNoQuote(v: Option<Json>)
    ensures '`' !in Sanitize(v) && '\'' !in Sanitize(v)
  {
    assert Dangerous('`') && Dangerous('\'');
    if v.Some? && v.value.Str? {
      StripRemoves(TrimEnd(TrimStart(v.value.s)));
    }
  }

  lemma OrElseIsSolid(s: string, fallback: string)
    requires '`' !in s && '\'' !in s && Solid(fallback)
    ensures Solid(OrElse(s, fallback))
  {
  }

  lemma ReadHasNoQuote(raw: Json, snake: string, camel: string)
    ensures '`' !in ReadString(raw, snake, camel) && '\'' !in ReadString(raw, snake, camel)
  {
    SanitizedHasNoQuote(raw.Get(snake));
    SanitizedHasNoQuote(raw.Get(camel));
  }

  lemma ReadOrElseIsSolid(raw: Json, snake: string, camel: string, fallback: string)
    requires Solid(fallback)
    ensures Solid(OrElse(ReadString(raw, snake, camel), fallback))
  {
    ReadHasNoQuote(raw, snake, camel);
    OrElseIsSolid(ReadString(raw, snake, camel), fallback);
  }

  lemma ChannelIsSolid(raw: Json, fallback: string)
    requires Solid(fallback)
    ensures Solid(OrElse(Sanitize(raw.Get("discoveryChannel")), fallback))
  {
    SanitizedHasNoQuote(raw.Get("discoveryChannel"));
    OrElseIsSolid(Sanitize(raw.Get("discoveryChannel")), fallback);
  }

  lemma NormalizedIsSolid(raw: Json)
    ensures SolidContext(Normalize(raw))
  {
    DerivedProductIsSolid(ReadString(raw, "business_description", "businessDescription"));
    SolidFallbacks();
    ReadOrElseIsSolid(raw, "business_name", "businessName", "your business");
    ReadOrElseIsSolid(raw, "target_customer", "targetCustomer", "your ideal customer");
    ChannelIsSolid(raw, "your main channel");
  }

  lemma SolidFallbacks()
    ensures Solid("your business") && Solid("your ideal customer") && Solid("your main channel")
  {
  }

  lemma PassKeepsNonEmpty(text: string, name: string, value: string)
    requires text != "" && Solid(value)
    ensures Pass(text, name, value) != ""
  {
    assert |value| >= 2 ==> value[0] in value && value[1] in value;
  }

  lemma RenderedIsEmptyOnlyForEmpty(raw: string, ctx: Context)
    requires SolidContext(ctx)
    ensures RenderText(raw, ctx) == "" <==> raw == ""
  {
    if raw != "" {
      PassKeepsNonEmpty(raw, BUSINESS_NAME, ctx.businessName);
      var s1 := Pass(raw, BUSINESS_NAME, ctx.businessName);
      PassKeepsNonEmpty(s1, PRODUCT, ctx.product);
      var s2 := Pass(s1, PRODUCT, ctx.product);
      PassKeepsNonEmpty(s2, SERVICE, ctx.service);
      var s3 := Pass(s2, SERVICE, ctx.service);
      PassKeepsNonEmpty(s3, TARGET_CUSTOMER, ctx.targetCustomer);
      var s4 := Pass(s3, TARGET_CUSTOMER, ctx.targetCustomer);
      PassKeepsNonEmpty(s4, DISCOVERY_CHANNEL, ctx.discoveryChannel);
    }
  }

  /** The stage's two long texts keep within the processor's limit. */
  predicate TextsFit(stage: TemplateStage, ctx: Context) {
    |RenderText(stage.explanation, ctx)| <= MAX_FIELD_LENGTH
    && |RenderText(stage.actionPrompt, ctx)| <= MAX_FIELD_LENGTH
  }

  lemma RenderedTasksAreNamed(stage: TemplateStage, ctx: Context)
    requires GoodStage(stage) && SolidContext(ctx)
    ensures forall t | t in RenderStage(stage, ctx).tasks :: t.name != "" && t.taskText != ""
  {
    var tasks := RenderStage(stage, ctx).tasks;
    forall i | 0 <= i < |tasks|
      ensures tasks[i].name != "" && tasks[i].taskText != ""
    {
      assert stage.tasks[i] in stage.tasks;
      RenderedIsEmptyOnlyForEmpty(stage.tasks[i], ctx);
      TaskNameIsShortPrefix(RenderText(stage.tasks[i], ctx));
    }
  }

  lemma EncodedTextsFit(sd: StageData)
    requires StageOk(EncodeStage(sd))
    ensures |sd.explanation| <= MAX_FIELD_LENGTH && |sd.actionPrompt| <= MAX_FIELD_LENGTH
  {
    var item := EncodeStage(sd);
    assert item.GetString("explanation") == Some(sd.explanation);
    assert item.GetString("actionPrompt") == Some(sd.actionPrompt);
  }

  lemma RenderedStageIsFromSourceExactlyWhenTextsFit(stage: TemplateStage, ctx: Context)
    requires GoodStage(stage) && SolidContext(ctx)
    ensures SourceStage(RenderStage(stage, ctx)) <==> TextsFit(stage, ctx)
  {
    RenderedIsEmptyOnlyForEmpty(stage.channel, ctx);
    RenderedTasksAreNamed(stage, ctx);
  }

  lemma PassingTextsFit(t: TemplateDefinition, ctx: Context)
    requires GoodTemplate(t) && ValidStageData(Encode(RenderTemplate(t, ctx)))
    ensures forall stage | stage in t.stages :: TextsFit(stage, ctx)
  {
    var items := Encode(RenderTemplate(t, ctx)).items;
    forall i | 0 <= i < |t.stages|
      ensures TextsFit(t.stages[i], ctx)
    {
      assert StageOk(items[i]) && items[i] == EncodeStage(RenderStage(t.stages[i], ctx));
      EncodedTextsFit(RenderStage(t.stages[i], ctx));
    }
  }

  lemma FittingTextsPass(t: TemplateDefinition, ctx: Context)
    requires GoodTemplate(t) && SolidContext(ctx) && forall stage | stage in t.stages :: TextsFit(stage, ctx)
    ensures ValidStageData(Encode(RenderTemplate(t, ctx)))
  {
    var data := RenderTemplate(t, ctx);
    forall i | 0 <= i < |data|
      ensures SourceStage(data[i])
    {
      assert t.stages[i] in t.stages;
      RenderedStageIsFromSourceExactlyWhenTextsFit(t.stages[i], ctx);
    }
    SourcePassesExactlyWhenDistinct(data);
  }

  /** For every context whatever the user wrote into it: a good template's rendering passes the
      processor's check exactly when its explanations and prompts keep within the length limit. */
  lemma RenderedTemplatePassesExactlyWhenTextsFit(t: TemplateDefinition, raw: Json)
    requires GoodTemplate(t)
    ensures ValidStageData(Encode(RenderTemplate(t, Normalize(raw))))
            <==> forall stage | stage in t.stages :: TextsFit(stage, Normalize(raw))
  {
    var ctx := Normalize(raw);
    NormalizedIsSolid(raw);
    if forall stage | stage in t.stages :: TextsFit(stage, ctx) {
      FittingTextsPass(t, ctx);
    } else if ValidStageData(Encode(RenderTemplate(t, ctx))) {
      PassingTextsFit(t, ctx);
    }
  }

  // ----- a context whose texts do not fit -----

  /** What sanitize leaves alone. */
  predicate Plain(s: string) {
    0 < |s| <= VALUE_MAX && !IsWhite(s[0]) && !IsWhite(s[|s| - 1]) && forall c | c in s :: !Dangerous(c)
  }

  lemma {:induction false} StripKeeps(s: string)
    requires forall c | c in s :: !Dangerous(c)
    ensures Strip(s) == s
  {
    if s != "" {
      assert s[0] in s;
      StripKeeps(s[1..]);
    }
  }

  lemma SanitizeKeepsPlain(s: string)
    requires Plain(s)
    ensures Sanitize(Some(Str(s))) == s
  {
    StripKeeps(s);
  }

  function NestedInput(channel: string): Json {
    Obj(map["business_name" := Str(Print(Copies(TARGET_CUSTOMER, 10))),
            "target_customer" := Str(Print(Copies(DISCOVERY_CHANNEL, 9))),
            "discoveryChannel" := Str(channel)])
  }

  lemma CopiesArePlain(name: string, n: nat)
    requires name != "" && AllWord(name) && 0 < n * (|name| + 4) <= VALUE_MAX
    ensures Plain(Print(Copies(name, n)))
  {
    CopiesAre(name, n);
    WordsAreHarmless();
    assert n > 0;
  }

  lemma WordsAreHarmless()
    ensures forall c | IsWord(c) || c == '{' || c == '}' :: !Dangerous(c)
    ensures !IsWhite('{') && !IsWhite('}')
  {
  }

  lemma ReadIsKept(raw: Json, snake: string, camel: string, s: string, fallback: string)
    requires raw.Get(snake) == Some(Str(s)) && Plain(s)
    ensures OrElse(ReadString(raw, snake, camel), fallback) == s
  {
    SanitizeKeepsPlain(s);
  }

  lemma NestedBusiness(raw: Json, channel: string)
    requires raw == NestedInput(channel)
    ensures Normalize(raw).businessName == Print(Copies(TARGET_CUSTOMER, 10))
  {
    KnownNamesAreWords();
    CopiesArePlain(TARGET_CUSTOMER, 10);
    ReadIsKept(raw, "business_name", "businessName", Print(Copies(TARGET_CUSTOMER, 10)), "your business");
  }

  lemma NestedCustomer(raw: Json, channel: string)
    requires raw == NestedInput(channel)
    ensures Normalize(raw).targetCustomer == Print(Copies(DISCOVERY_CHANNEL, 9))
  {
    KnownNamesAreWords();
    CopiesArePlain(DISCOVERY_CHANNEL, 9);
    ReadIsKept(raw, "target_customer", "targetCustomer", Print(Copies(DISCOVERY_CHANNEL, 9)), "your ideal customer");
  }

  lemma NormalizedProductIsInert(raw: Json)
    ensures Inert(Normalize(raw).product) && Normalize(raw).service == Normalize(raw).product
    ensures 0 < |Normalize(raw).product| <= VALUE_MAX
  {
    DerivedProductIsInert(ReadString(raw, "business_description", "businessDescription"));
  }

  lemma NestedInputIsNested(channel: string)
    requires Plain(channel) && Inert(channel)
    ensures Nested(Normalize(NestedInput(channel)), 10, 9)
    ensures Normalize(NestedInput(channel)).discoveryChannel == channel
  {
    var raw := NestedInput(channel);
    NestedBusiness(raw, channel);
    NestedCustomer(raw, channel);
    NormalizedProductIsInert(raw);
    SanitizeKeepsPlain(channel);
    assert raw.Get("discoveryChannel") == Some(Str(channel));
  }

  /** A business name of ten customer tokens and a target customer of nine channel tokens are both
      accepted, and with a channel of 23 characters or more every template whose explanations name the
      business is rejected. */
  lemma NestedValuesFailTheCheck(t: TemplateDefinition, stage: TemplateStage, segs: seq<Segment>, channel: string)
    requires GoodTemplate(t) && stage in t.stages && stage.explanation == Print(segs) && GoodSegments(segs)
    requires Tok(BUSINESS_NAME) in segs && Plain(channel) && Inert(channel) && |channel| >= 23
    ensures !ValidStageData(Encode(RenderTemplate(t, Normalize(NestedInput(channel)))))
  {
    var raw := NestedInput(channel);
    var ctx := Normalize(raw);
    NestedInputIsNested(channel);
    NestedValuesMultiply(segs, ctx, 10, 9);
    TokIsCounted(segs, BUSINESS_NAME);
    NinetyCopies(Toks(segs, BUSINESS_NAME), |channel|);
    assert !TextsFit(stage, ctx);
    RenderedTemplatePassesExactlyWhenTextsFit(t, raw);
  }

  lemma {:induction false} TokIsCounted(segs: seq<Segment>, name: string)
    requires Tok(name) in segs
    ensures Toks(segs, name) >= 1 && Print(segs) != ""
  {
    if segs[0] != Tok(name) {
      TokIsCounted(segs[1..], name);
    }
  }

  lemma NinetyCopies(t: nat, n: nat)
    requires t >= 1 && n >= 23
    ensures t * 10 * 9 * n > MAX_FIELD_LENGTH
  {
    assert t * 10 * 9 >= 90;
    assert t * 10 * 9 * n >= 90 * n;
  }

  // ----- inert contexts -----

  lemma RenderedDataPasses(t: TemplateDefinition, ctx: Context)
    requires GoodTemplate(t) && InertContext(ctx) && BoundedContext(ctx)
    ensures FromSource(RenderTemplate(t, ctx)) && DistinctPositions(RenderTemplate(t, ctx))
    ensures ValidStageData(Encode(RenderTemplate(t, ctx)))
  {
    var data := RenderTemplate(t, ctx);
    forall sd | sd in data
      ensures SourceStage(sd)
    {
      var i :| 0 <= i < |data| && data[i] == sd;
      assert t.stages[i] in t.stages;
      RenderedStageIsFromSource(t.stages[i], ctx);
    }
    SourcePassesExactlyWhenDistinct(data);
  }

  /** So the fallback never fails the processor's check in an inert context. */
  lemma RenderedTemplatePasses(t: TemplateDefinition, raw: Json)
    requires GoodTemplate(t) && InertContext(Normalize(raw))
    ensures FromSource(RenderTemplate(t, Normalize(raw))) && DistinctPositions(RenderTemplate(t, Normalize(raw)))
    ensures ValidStageData(Encode(RenderTemplate(t, Normalize(raw))))
  {
    NormalizedContext(raw);
    RenderedDataPasses(t, Normalize(raw));
  }

  /** For values that are well-formed texts, tokens included, the limit is met exactly when the lengths
      of the literals and of each token's final text add up to no more. */
  lemma TextsFitByTokenLengths(stage: TemplateStage, ctx: Context, e: seq<Segment>, p: seq<Segment>, v: Values)
    requires GoodSegments(e) && stage.explanation == Print(e) && GoodSegments(p) && stage.actionPrompt == Print(p)
    requires Parses(ctx, v)
    ensures TextsFit(stage, ctx) <==>
              TextLength(e, Passes(v)) <= MAX_FIELD_LENGTH && TextLength(p, Passes(v)) <= MAX_FIELD_LENGTH
  {
    SubstituteSplices(e, ctx, v);
    SubstituteSplices(p, ctx, v);
    EmptyTextIsEmpty(e, ctx);
    EmptyTextIsEmpty(p, ctx);
  }

  lemma EmptyTextIsEmpty(segs: seq<Segment>, ctx: Context)
    ensures |RenderText(Print(segs), ctx)| == |Substitute(Print(segs), ctx)|
  {
    assert Substitute("", ctx) == "";
  }

  /** Every library stage has the channel {{discovery_channel}}. It passes the check at up to 200
      characters, but the column it is written to holds 100. For every context the write goes through
      exactly when the value, its dollar patterns expanded and its tokens put in words, is that short;
      the value is stored as it is exactly when it has neither. */
  lemma RenderedChannelFitsColumnExactlyWhenShort(stage: TemplateStage, ctx: Context)
    requires stage.channel == Print([Tok(DISCOVERY_CHANNEL)])
    ensures var value, channel := ctx.discoveryChannel, RenderStage(stage, ctx).channel;
            && channel == Sweep(Expand(value, Braced(DISCOVERY_CHANNEL), "", ""))
            && (channel == value <==> PairFree(value) && WordTokenFree(value))
            && (PairFree(value) ==> |channel| <= |value|)
            && (PairFree(value) && WordTokenFree(value) ==>
                  (|channel| <= FunnelRows.CHANNEL_COLUMN_WIDTH <==> |value| <= FunnelRows.CHANNEL_COLUMN_WIDTH))
  {
    assert [Tok(DISCOVERY_CHANNEL)][1..] == [] && stage.channel == Braced(DISCOVERY_CHANNEL) + "";
    assert stage.channel == Braced(DISCOVERY_CHANNEL);
    ChannelTokenAlone(ctx);
    if PairFree(ctx.discoveryChannel) {
      ExpandInert(ctx.discoveryChannel, Braced(DISCOVERY_CHANNEL), "", "");
      SweepShortens(ctx.discoveryChannel);
    }
  }
}
