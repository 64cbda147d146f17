/** What the template engine puts into each field and where it takes it from. */
module TemplateAnswers {
  import opened Json
  import opened StageData
  import opened TokenSubstitution
  import opened TemplateRender

  // ----- rendered stages -----

  /** For every context, each rendered field is the substitution of the same field of the template. */
  lemma RenderedFieldsKeepTheirPlaces(t: TemplateDefinition, i: nat, ctx: Context)
    requires i < |t.stages|
    ensures |RenderTemplate(t, ctx)| == |t.stages|
    ensures var stage, sd := t.stages[i], RenderTemplate(t, ctx)[i];
            && sd.position == stage.position && sd.channel == Substitute(stage.channel, ctx)
            && sd.explanation == Substitute(stage.explanation, ctx)
            && sd.actionPrompt == Substitute(stage.actionPrompt, ctx)
            && |sd.tasks| == |stage.tasks|
            && forall j | 0 <= j < |stage.tasks| ::
                 && sd.tasks[j].taskText == Substitute(stage.tasks[j], ctx)
                 && sd.tasks[j].name == TaskName(Substitute(stage.tasks[j], ctx))
  {
    assert Substitute("", ctx) == "";
  }

  /** In an inert context that is the simultaneous substitution of the field's own tokens. */
  lemma RenderedFieldsAreSimultaneous(t: TemplateDefinition, i: nat, ctx: Context, channel: seq<Segment>,
                                      explanation: seq<Segment>, actionPrompt: seq<Segment>, tasks: seq<seq<Segment>>)
    requires i < |t.stages| && InertContext(ctx)
    requires GoodSegments(channel) && t.stages[i].channel == Print(channel)
    requires GoodSegments(explanation) && t.stages[i].explanation == Print(explanation)
    requires GoodSegments(actionPrompt) && t.stages[i].actionPrompt == Print(actionPrompt)
    requires |tasks| == |t.stages[i].tasks|
    requires forall j | 0 <= j < |tasks| :: GoodSegments(tasks[j]) && t.stages[i].tasks[j] == Print(tasks[j])
    ensures i < |RenderTemplate(t, ctx)|
    ensures var sd := RenderTemplate(t, ctx)[i];
            && sd.position == t.stages[i].position && sd.channel == Simultaneous(channel, ctx)
            && sd.explanation == Simultaneous(explanation, ctx) && sd.actionPrompt == Simultaneous(actionPrompt, ctx)
            && |sd.tasks| == |tasks|
            && forall j | 0 <= j < |tasks| :: sd.tasks[j].taskText == Simultaneous(tasks[j], ctx)
  {
    RenderedFieldsKeepTheirPlaces(t, i, ctx);
    SubstituteIsSimultaneous(channel, ctx);
    SubstituteIsSimultaneous(explanation, ctx);
    SubstituteIsSimultaneous(actionPrompt, ctx);
    forall j | 0 <= j < |tasks|
      ensures Substitute(t.stages[i].tasks[j], ctx) == Simultaneous(tasks[j], ctx)
    {
      SubstituteIsSimultaneous(tasks[j], ctx);
    }
  }

  /** The value of each token; a name that is not one of the five is put in words. */
  lemma TokensStandFor(name: string, ctx: Context)
    ensures ValueOf("business_name", ctx) == ctx.businessName && ValueOf("product", ctx) == ctx.product
    ensures ValueOf("service", ctx) == ctx.service && ValueOf("target_customer", ctx) == ctx.targetCustomer
    ensures ValueOf("discovery_channel", ctx) == ctx.discoveryChannel
    ensures name !in ["business_name", "product", "service", "target_customer", "discovery_channel"] ==>
              var words := ValueOf(name, ctx);
              && |words| == |name|
              && forall k | 0 <= k < |name| ::
                   && (name[k] == '_' ==> words[k] == ' ')
                   && ('A' <= name[k] <= 'Z' ==> words[k] as int == name[k] as int + 32)
                   && (name[k] != '_' && !('A' <= name[k] <= 'Z') ==> words[k] == name[k])
    ensures AllWord(name) <==>
              forall c | c in name :: 'a' <= c <= 'z' || 'A' <= c <= 'Z' || '0' <= c <= '9' || c == '_'
  {
  }

  /** What the four dollar patterns insert; everything else stands for itself. */
  lemma DollarPatterns(rest: string, m: string, before: string, after: string, c: char)
    ensures Expand("$$" + rest, m, before, after) == "$" + Expand(rest, m, before, after)
    ensures Expand("$&" + rest, m, before, after) == m + Expand(rest, m, before, after)
    ensures Expand("$`" + rest, m, before, after) == before + Expand(rest, m, before, after)
    ensures Expand("$'" + rest, m, before, after) == after + Expand(rest, m, before, after)
    ensures !(c == '$' && rest != "" && rest[0] in "$&`'") ==>
              Expand([c] + rest, m, before, after) == [c] + Expand(rest, m, before, after)
    ensures Expand("", m, before, after) == ""
  {
    assert ("$$" + rest)[2..] == rest && ("$&" + rest)[2..] == rest;
    assert ("$`" + rest)[2..] == rest && ("$'" + rest)[2..] == rest;
    assert ([c] + rest)[1..] == rest;
  }

  // ----- task names -----

  /** Text with at most three spaces is its own name, up to 50 characters; of a longer text it is what
      precedes the fourth space. */
  lemma TaskNameIsFourWords(head: string, rest: string)
    ensures multiset(head)[' '] <= 3 ==> TaskName(head) == if |head| <= 50 then head else head[..50]
    ensures multiset(head)[' '] == 3 ==> TaskName(head + " " + rest) == if |head| <= 50 then head else head[..50]
  {
    if multiset(head)[' '] <= 3 {
      AllWords(head, 4);
    }
    if multiset(head)[' '] == 3 {
      WordsBefore(head, rest, 4);
    }
  }

  lemma SpaceSplits(s: string)
    ensures SpaceAt(s) == |s| ==> multiset(s)[' '] == 0
    ensures SpaceAt(s) < |s| ==> multiset(s[SpaceAt(s) + 1..])[' '] == multiset(s)[' '] - 1
  {
    var k := SpaceAt(s);
    NoSpaceBefore(s);
    assert multiset(s[..k])[' '] == 0;
    if k < |s| {
      assert s == s[..k] + [' '] + s[k + 1..];
    } else {
      assert s == s[..k];
    }
  }

  lemma {:induction false} NoSpaceBefore(s: string)
    ensures ' ' !in s[..SpaceAt(s)]
  {
    if s != "" && s[0] != ' ' {
      NoSpaceBefore(s[1..]);
      assert s[..SpaceAt(s)] == [s[0]] + s[1..][..SpaceAt(s[1..])];
    }
  }

  lemma {:induction false} PiecesAreSpaces(s: string)
    ensures |Split(s)| == multiset(s)[' '] + 1
    decreases |s|
  {
    SpaceSplits(s);
    if SpaceAt(s) < |s| {
      PiecesAreSpaces(s[SpaceAt(s) + 1..]);
    }
  }

  lemma AllWords(s: string, n: nat)
    requires multiset(s)[' '] < n
    ensures FirstWords(s, n) == s
  {
    PiecesAreSpaces(s);
    SplitJoins(s);
  }

  lemma {:induction false} SplitAtSpace(s: string, rest: string, all: string)
    requires all == s + " " + rest
    ensures Split(all) == Split(s) + Split(rest)
    decreases |s|
  {
    var k := SpaceAt(s);
    SpaceAtAppend(s, rest, all);
    SplitOnce(all, k);
    if k == |s| {
      assert all[..k] == s && all[k + 1..] == rest;
    } else {
      SplitOnce(s, k);
      Slices(s, rest, all, k);
      SplitAtSpace(s[k + 1..], rest, all[k + 1..]);
      PrefixedLists([s[..k]], Split(s[k + 1..]), Split(rest));
    }
  }

  lemma PrefixedLists(a: seq<string>, b: seq<string>, c: seq<string>)
    ensures (a + b) + c == a + (b + c)
  {
  }

  lemma Slices(s: string, rest: string, all: string, k: nat)
    requires all == s + " " + rest && k < |s|
    ensures all[..k] == s[..k] && all[k + 1..] == s[k + 1..] + " " + rest
  {
  }

  lemma SplitOnce(s: string, k: nat)
    requires k == SpaceAt(s) < |s|
    ensures Split(s) == [s[..k]] + Split(s[k + 1..])
  {
  }

  lemma {:induction false} SpaceAtAppend(s: string, rest: string, all: string)
    requires all == s + " " + rest
    ensures SpaceAt(all) == SpaceAt(s)
  {
    if s != "" && s[0] != ' ' {
      assert all[1..] == s[1..] + " " + rest;
      SpaceAtAppend(s[1..], rest, all[1..]);
    }
  }

  lemma WordsBefore(head: string, rest: string, n: nat)
    requires multiset(head)[' '] + 1 == n
    ensures FirstWords(head + " " + rest, n) == head
  {
    SplitAtSpace(head, rest, head + " " + rest);
    PiecesAreSpaces(head);
    SplitJoins(head);
    assert (Split(head) + Split(rest))[..n] == Split(head);
  }

  // ----- the derived product -----

  /** s[i..j] is bounded by separators or the text's ends and holds none itself. */
  predicate PieceAt(s: string, i: nat, j: nat) {
    && i < j <= |s| && (i > 0 ==> IsSeparator(s[i - 1])) && (j < |s| ==> IsSeparator(s[j]))
    && forall k | i <= k < j :: !IsSeparator(s[k])
  }

  /** Such a piece of three characters or more, letters and hyphens, a letter first. */
  predicate NounAt(s: string, i: nat, j: nat) {
    && PieceAt(s, i, j) && j - i >= 3 && ('a' <= s[i] <= 'z' || 'A' <= s[i] <= 'Z')
    && forall k | i <= k < j :: 'a' <= s[k] <= 'z' || 'A' <= s[k] <= 'Z' || s[k] == '-'
  }

  lemma NounIsNoun(s: string, i: nat, j: nat)
    requires PieceAt(s, i, j)
    ensures NounAt(s, i, j) <==> IsNoun(s[i..j])
  {
    if IsNoun(s[i..j]) {
      forall k | i <= k < j
        ensures IsLetter(s[k]) || s[k] == '-'
      {
        assert s[k] == s[i..j][k - i] && s[k] in s[i..j];
      }
    }
  }

  lemma {:induction false} PieceLengthIs(s: string)
    ensures forall k | 0 <= k < PieceLength(s) :: !IsSeparator(s[k])
    ensures PieceLength(s) < |s| ==> IsSeparator(s[PieceLength(s)])
  {
    if s != "" && !IsSeparator(s[0]) {
      PieceLengthIs(s[1..]);
      forall k | 0 <= k < PieceLength(s)
        ensures !IsSeparator(s[k])
      {
        if k > 0 {
          assert s[k] == s[1..][k - 1];
        }
      }
    }
  }

  /** No noun starts at a position from a on and before b. */
  ghost predicate NoNounIn(s: string, a: int, b: int) {
    forall k: nat, l: nat | NounAt(s, k, l) :: k < a || b <= k
  }

  ghost predicate IsFirstNoun(s: string, at: nat, i: nat, j: nat) {
    at <= i && NounAt(s, i, j) && NoNounIn(s, at, i)
  }

  /** What the search does at a position where a piece or a separator starts. */
  lemma FirstNounStep(s: string, at: nat) returns (next: nat)
    requires at < |s| && (at == 0 || IsSeparator(s[at - 1]) || IsSeparator(s[at]))
    ensures at < next <= |s| && (next == |s| || IsSeparator(s[next - 1]) || IsSeparator(s[next]))
    ensures NounAt(s, at, next) ==> FirstNoun(s[at..]) == Some(s[at..next])
    ensures !NounAt(s, at, next) ==> FirstNoun(s[at..]) == FirstNoun(s[next..]) && NoNounIn(s, at, next)
  {
    var rest := s[at..];
    var n := PieceLength(rest);
    PieceLengthIs(rest);
    assert rest[0] == s[at];
    if n == 0 {
      next := at + 1;
      assert rest[1..] == s[next..];
    } else {
      next := at + n;
      assert rest[..n] == s[at..next] && rest[n..] == s[next..];
      forall k | at <= k < next
        ensures !IsSeparator(s[k])
      {
        assert s[k] == rest[k - at];
      }
      assert next < |s| ==> s[next] == rest[n];
      NounIsNoun(s, at, next);
      NounsInPiece(s, at, next);
    }
  }

  /** From there on, the noun found is the leftmost one there is. */
  lemma {:induction false} FirstNounFrom(s: string, at: nat) returns (i: nat, j: nat)
    requires at <= |s| && (at == 0 || at == |s| || IsSeparator(s[at - 1]) || IsSeparator(s[at]))
    ensures FirstNoun(s[at..]).Some? ==> IsFirstNoun(s, at, i, j) && FirstNoun(s[at..]) == Some(s[i..j])
    ensures FirstNoun(s[at..]).None? ==> NoNounIn(s, at, |s|)
    decreases |s| - at
  {
    i, j := 0, 0;
    if at < |s| {
      var next := FirstNounStep(s, at);
      if NounAt(s, at, next) {
        i, j := at, next;
      } else {
        i, j := FirstNounFrom(s, next);
      }
    }
  }

  /** Only the piece itself can be a noun among what starts inside it. */
  lemma NounsInPiece(s: string, i: nat, j: nat)
    requires PieceAt(s, i, j)
    ensures forall k: nat, l: nat | NounAt(s, k, l) && i <= k < j :: k == i && l == j
  {
    forall k: nat, l: nat | NounAt(s, k, l) && i <= k < j
      ensures k == i && l == j
    {
    }
  }

  /** Letters lose their case and nothing else changes. */
  predicate InLowerCase(s: string, r: string) {
    |r| == |s| && forall k | 0 <= k < |s| :: r[k] as int == s[k] as int + if 'A' <= s[k] <= 'Z' then 32 else 0
  }

  lemma LowerAllLowers(s: string)
    ensures InLowerCase(s, LowerAll(s))
  {
  }

  lemma NounIsNotBlank(s: string, i: nat, j: nat)
    requires NounAt(s, i, j)
    ensures !IsBlank(s)
  {
    assert s[i] in s && !IsSeparator(s[i]);
  }

  /** The product is the first noun of the description in lower case, or the default without one. */
  lemma ProductIsFirstNoun(s: string) returns (i: nat, j: nat)
    ensures (exists k: nat, l: nat :: NounAt(s, k, l)) ==>
              IsFirstNoun(s, 0, i, j) && InLowerCase(s[i..j], DeriveProduct(s))
    ensures (forall k: nat, l: nat :: !NounAt(s, k, l)) ==> DeriveProduct(s) == "your product/service"
  {
    assert s[0..] == s;
    i, j := FirstNounFrom(s, 0);
    if FirstNoun(s).Some? {
      NounIsNotBlank(s, i, j);
      LowerAllLowers(s[i..j]);
    }
  }

  // ----- sanitised values -----

  /** White space goes at both ends, then every quote, angle bracket and invisible mark, then whatever
      exceeds 200 characters. */
  lemma SanitizedReads(lead: string, core: string, trail: string)
    requires IsBlank(lead) && IsBlank(trail)
    requires core == "" || (!IsWhite(core[0]) && !IsWhite(core[|core| - 1]))
    ensures Sanitize(Some(Str(lead + core + trail)))
            == if |Strip(core)| <= 200 then Strip(core) else Strip(core)[..200]
  {
    Trimmed(lead, core, trail);
  }

  lemma Trimmed(lead: string, core: string, trail: string)
    requires IsBlank(lead) && IsBlank(trail)
    requires core == "" || (!IsWhite(core[0]) && !IsWhite(core[|core| - 1]))
    ensures TrimEnd(TrimStart(lead + core + trail)) == core
  {
    assert lead + core + trail == lead + (core + trail);
    TrimmedStart(lead, core + trail);
    if core == "" {
      BlankIsTrimmed(trail);
      assert core + trail == trail;
    } else {
      StartsSolid(core, trail);
      TrimmedEnd(core, trail);
    }
  }

  lemma BlankIsTrimmed(trail: string)
    requires IsBlank(trail)
    ensures TrimEnd(TrimStart(trail)) == ""
  {
    TrimmedStart(trail, "");
    assert trail + "" == trail;
  }

  lemma StartsSolid(core: string, trail: string)
    requires core != "" && !IsWhite(core[0])
    ensures TrimStart(core + trail) == core + trail
  {
  }

  lemma {:induction false} TrimmedStart(lead: string, rest: string)
    requires IsBlank(lead)
    ensures TrimStart(lead + rest) == TrimStart(rest)
  {
    if lead == "" {
      assert lead + rest == rest;
    } else {
      assert lead[0] in lead && (lead + rest)[1..] == lead[1..] + rest;
      TrimmedStart(lead[1..], rest);
    }
  }

  lemma {:induction false} TrimmedEnd(core: string, trail: string)
    requires IsBlank(trail) && core != "" && !IsWhite(core[|core| - 1])
    ensures TrimEnd(core + trail) == core
    decreases |trail|
  {
    if trail == "" {
      assert core + trail == core;
    } else {
      var n, all := |trail| - 1, core + trail;
      assert trail[n] in trail && all[|all| - 1] == trail[n];
      assert all[..|all| - 1] == core + trail[..n];
      TrimmedEnd(core, trail[..n]);
    }
  }

  /** Character by character, what is stripped. */
  lemma StrippedCharacters(c: char, s: string)
    ensures Strip([c] + s) == if c in "<>\"'`" || '\U{200B}' <= c <= '\U{200F}' || '\U{202A}' <= c <= '\U{202E}'
                              then Strip(s) else [c] + Strip(s)
    ensures Strip("") == ""
  {
    assert ([c] + s)[1..] == s;
  }

  /** Where each value comes from and what stands in for a missing one. */
  lemma NormalizedReads(raw: Json)
    ensures var c := Normalize(raw);
            var name := Sanitize(if Unset(raw.Get("business_name")) then raw.Get("businessName")
                                 else raw.Get("business_name"));
            var customer := Sanitize(if Unset(raw.Get("target_customer")) then raw.Get("targetCustomer")
                                     else raw.Get("target_customer"));
            var channel := Sanitize(raw.Get("discoveryChannel"));
            && c.businessName == (if name == "" then "your business" else name)
            && c.targetCustomer == (if customer == "" then "your ideal customer" else customer)
            && c.discoveryChannel == (if channel == "" then "your main channel" else channel)
    ensures var c := Normalize(raw);
            var description := Sanitize(if Unset(raw.Get("business_description")) then raw.Get("businessDescription")
                                        else raw.Get("business_description"));
            c.product == c.service == DeriveProduct(description)
    ensures forall v: Option<Json> :: !(v.Some? && v.value.Str?) ==> Sanitize(v) == ""
  {
  }

  predicate Unset(v: Option<Json>) {
    v.None? || v.value.Null?
  }

  // ----- choosing a template -----

  /** Names are compared without regard to case. */
  lemma MatchingReads(t: TemplateDefinition, business: string, channel: string)
    ensures MatchesBoth(t, business, channel) <==>
              && (exists n | n in t.businessType :: LowerAll(n) == business)
              && (exists n | n in t.channelMatch :: LowerAll(n) == channel)
    ensures Among(t.businessType, business) <==> exists n | n in t.businessType :: LowerAll(n) == business
    ensures InLowerCase(business, LowerAll(business))
  {
  }
}
