/** The template fallback engine: context normalisation, template choice, and substitution as a
    chain of replace passes. Its reference is one simultaneous substitution on parsed text. */
module TokenSubstitution {
  const VALUE_MAX := 200
  const NAME_MAX := 50

  datatype Context = Context(businessName: string, product: string, service: string,
                             targetCustomer: string, discoveryChannel: string)

  // ----- String.replace with a global literal pattern -----

  /** `$$`, `$&`, `$\`` and `$'` in a replacement string, for a match `m` between `before` and `after`. */
  function Expand(value: string, m: string, before: string, after: string): string {
    if |value| < 2 then value
    else if value[0] != '$' then [value[0]] + Expand(value[1..], m, before, after)
    else if value[1] == '$' then "$" + Expand(value[2..], m, before, after)
    else if value[1] == '&' then m + Expand(value[2..], m, before, after)
    else if value[1] == '`' then before + Expand(value[2..], m, before, after)
    else if value[1] == '\'' then after + Expand(value[2..], m, before, after)
    else [value[0]] + Expand(value[1..], m, before, after)
  }

  /** Replaces every occurrence of `token` in `s`, left to right; `before` is what precedes `s`. */
  function ReplaceAll(before: string, s: string, token: string, value: string): string
    requires token != ""
    decreases |s|
  {
    if s == "" then ""
    else if token <= s then
      Expand(value, token, before, s[|token|..]) + ReplaceAll(before + token, s[|token|..], token, value)
    else [s[0]] + ReplaceAll(before + [s[0]], s[1..], token, value)
  }

  // ----- the engine -----

  predicate IsWord(c: char) {
    'a' <= c <= 'z' || 'A' <= c <= 'Z' || '0' <= c <= '9' || c == '_'
  }

  function WordRun(s: string): nat {
    if s != "" && IsWord(s[0]) then 1 + WordRun(s[1..]) else 0
  }

  lemma {:induction false} WordRunBounded(s: string)
    ensures WordRun(s) <= |s|
  {
    if s != "" && IsWord(s[0]) {
      WordRunBounded(s[1..]);
    }
  }

  /** Length of the word of a `{{word}}` token at the start of `s`, 0 when there is none. */
  function TokenWord(s: string): (n: nat)
    ensures n > 0 ==> n + 4 <= |s|
  {
    if "{{" <= s then
      WordRunBounded(s[2..]);
      var n := WordRun(s[2..]);
      if n > 0 && "}}" <= s[2 + n..] then n else 0
    else 0
  }

  function Lower(c: char): char {
    if 'A' <= c <= 'Z' then c - 'A' + 'a' else c
  }

  function HumanizeToken(name: string): string {
    seq(|name|, i requires 0 <= i < |name| => if name[i] == '_' then ' ' else Lower(name[i]))
  }

  /** The final pass: every remaining token becomes its name in plain words. */
  function Sweep(s: string): string
    decreases |s|
  {
    if s == "" then ""
    else
      var n := TokenWord(s);
      if n > 0 then HumanizeToken(s[2..2 + n]) + Sweep(s[n + 4..]) else [s[0]] + Sweep(s[1..])
  }

  function Braced(name: string): string {
    "{{" + name + "}}"
  }

  function Pass(s: string, name: string, value: string): string {
    ReplaceAll("", s, Braced(name), value)
  }

  const BUSINESS_NAME := "business_name"
  const PRODUCT := "product"
  const SERVICE := "service"
  const TARGET_CUSTOMER := "target_customer"
  const DISCOVERY_CHANNEL := "discovery_channel"

  function KnownPasses(raw: string, ctx: Context): string {
    var s1 := Pass(raw, BUSINESS_NAME, ctx.businessName);
    var s2 := Pass(s1, PRODUCT, ctx.product);
    var s3 := Pass(s2, SERVICE, ctx.service);
    var s4 := Pass(s3, TARGET_CUSTOMER, ctx.targetCustomer);
    Pass(s4, DISCOVERY_CHANNEL, ctx.discoveryChannel)
  }

  function Substitute(raw: string, ctx: Context): string {
    Sweep(KnownPasses(raw, ctx))
  }

  // ----- reference: parsed text, all tokens replaced at once -----

  datatype Segment = Lit(text: string) | Tok(name: string)

  predicate BraceFree(s: string) {
    '{' !in s && '}' !in s
  }

  predicate AllWord(s: string) {
    forall c | c in s :: IsWord(c)
  }

  predicate GoodSegment(g: Segment) {
    match g
    case Lit(text) => BraceFree(text)
    case Tok(name) => name != "" && AllWord(name)
  }

  predicate GoodSegments(segs: seq<Segment>) {
    forall g | g in segs :: GoodSegment(g)
  }

  function PrintSegment(g: Segment): string {
    match g case Lit(text) => text case Tok(name) => Braced(name)
  }

  function Print(segs: seq<Segment>): string {
    if segs == [] then "" else PrintSegment(segs[0]) + Print(segs[1..])
  }

  function TokenCount(segs: seq<Segment>): nat {
    if segs == [] then 0 else (if segs[0].Tok? then 1 else 0) + TokenCount(segs[1..])
  }

  function ValueOf(name: string, ctx: Context): string {
    if name == BUSINESS_NAME then ctx.businessName
    else if name == PRODUCT then ctx.product
    else if name == SERVICE then ctx.service
    else if name == TARGET_CUSTOMER then ctx.targetCustomer
    else if name == DISCOVERY_CHANNEL then ctx.discoveryChannel
    else HumanizeToken(name)
  }

  function Simultaneous(segs: seq<Segment>, ctx: Context): string {
    if segs == [] then ""
    else (match segs[0] case Lit(text) => text case Tok(name) => ValueOf(name, ctx)) + Simultaneous(segs[1..], ctx)
  }

  /** No `$$`, `$&`, `$\`` or `$'`; any other dollar sign stands for itself. */
  predicate PairFree(value: string) {
    |value| < 2 || (!(value[0] == '$' && value[1] in "$&`'") && PairFree(value[1..]))
  }

  predicate Inert(value: string) {
    BraceFree(value) && PairFree(value)
  }

  predicate InertContext(ctx: Context) {
    && Inert(ctx.businessName) && Inert(ctx.product) && Inert(ctx.service)
    && Inert(ctx.targetCustomer) && Inert(ctx.discoveryChannel)
  }

  // ----- one pass on parsed text -----

  lemma {:induction false} ExpandInert(value: string, m: string, before: string, after: string)
    requires PairFree(value)
    ensures Expand(value, m, before, after) == value
  {
    if |value| >= 2 {
      ExpandInert(value[1..], m, before, after);
    }
  }

  /** Text without an opening brace is copied by a pass and by the sweep. */
  lemma {:induction false} PassCopies(before: string, text: string, rest: string, token: string, value: string)
    requires token != "" && token[0] == '{' && '{' !in text
    ensures ReplaceAll(before, text + rest, token, value) == text + ReplaceAll(before + text, rest, token, value)
    decreases |text|
  {
    if text == "" {
      assert text + rest == rest && before + text == before;
    } else {
      assert (text + rest)[0] == text[0] && (text + rest)[1..] == text[1..] + rest;
      assert before + [text[0]] + text[1..] == before + text;
      PassCopies(before + [text[0]], text[1..], rest, token, value);
    }
  }

  lemma {:induction false} SweepCopies(text: string, rest: string)
    requires '{' !in text
    ensures Sweep(text + rest) == text + Sweep(rest)
    decreases |text|
  {
    if text == "" {
      assert text + rest == rest;
    } else {
      var all := text + rest;
      assert all[0] == text[0] && all[0] in text;
      assert all[1..] == text[1..] + rest;
      SweepCopies(text[1..], rest);
      assert Sweep(all) == [all[0]] + Sweep(all[1..]);
    }
  }

  lemma BracedPrefix(name: string, other: string, rest: string)
    requires name != "" && AllWord(name) && AllWord(other)
    ensures Braced(other) <= Braced(name) + rest <==> name == other
  {
    var s, t := Braced(name) + rest, Braced(other);
    assert s[..|Braced(name)|] == Braced(name);
    if |other| < |name| {
      assert name[|other|] in name;
      assert t[2 + |other|] == '}' != s[2 + |other|] == name[|other|];
    } else if |name| < |other| {
      assert other[|name|] in other;
      assert s[2 + |name|] == '}' != t[2 + |name|] == other[|name|];
    } else if t <= s {
      assert forall i | 0 <= i < |name| :: name[i] == s[i + 2] == t[i + 2] == other[i];
    }
  }

  /** A pass at a token replaces it when it carries the pass's name and copies it otherwise. */
  lemma PassAtToken(before: string, name: string, rest: string, other: string, value: string)
    requires name != "" && AllWord(name) && AllWord(other) && PairFree(value)
    ensures exists before' ::
              ReplaceAll(before, Braced(name) + rest, Braced(other), value) ==
              (if name == other then value else Braced(name)) + ReplaceAll(before', rest, Braced(other), value)
  {
    var s, t := Braced(name) + rest, Braced(other);
    BracedPrefix(name, other, rest);
    if name == other {
      assert s[|t|..] == rest;
      ExpandInert(value, t, before, rest);
      assert ReplaceAll(before, s, t, value) == value + ReplaceAll(before + t, rest, t, value);
    } else {
      var tail := name + "}}";
      assert s[1..] == "{" + tail + rest && s[1..][1..] == tail + rest && s[0] == s[1..][0] == '{';
      assert !(t <= s[1..]) by {
        assert t[1] == '{' && s[1..][1] == name[0] && name[0] in name;
      }
      PassCopies(before + "{" + "{", tail, rest, t, value);
      assert ReplaceAll(before, s, t, value) ==
             "{" + ("{" + (tail + ReplaceAll(before + "{" + "{" + tail, rest, t, value)));
      assert "{" + ("{" + tail) == Braced(name);
      var r := ReplaceAll(before + "{" + "{" + tail, rest, t, value);
      assert "{" + ("{" + (tail + r)) == Braced(name) + r;
    }
  }

  function ReplaceToken(segs: seq<Segment>, name: string, value: string): seq<Segment> {
    seq(|segs|, i requires 0 <= i < |segs| => if segs[i] == Tok(name) then Lit(value) else segs[i])
  }

  lemma ReplacedHead(segs: seq<Segment>, name: string, value: string)
    requires segs != []
    ensures Print(ReplaceToken(segs, name, value))
            == PrintSegment(if segs[0] == Tok(name) then Lit(value) else segs[0])
               + Print(ReplaceToken(segs[1..], name, value))
  {
    assert ReplaceToken(segs, name, value)[1..] == ReplaceToken(segs[1..], name, value);
  }

  /** On well-formed text a pass with an inert value replaces exactly the segments of its name. */
  lemma {:induction false} PassReplacesTokens(before: string, segs: seq<Segment>, name: string, value: string)
    requires GoodSegments(segs) && AllWord(name) && Inert(value)
    ensures ReplaceAll(before, Print(segs), Braced(name), value) == Print(ReplaceToken(segs, name, value))
    ensures GoodSegments(ReplaceToken(segs, name, value))
    decreases |segs|
  {
    if segs != [] {
      assert segs[0] in segs;
      var rest := Print(segs[1..]);
      ReplacedHead(segs, name, value);
      match segs[0] {
        case Lit(text) =>
          PassCopies(before, text, rest, Braced(name), value);
          PassReplacesTokens(before + text, segs[1..], name, value);
        case Tok(n) =>
          PassAtToken(before, n, rest, name, value);
          var before' :| ReplaceAll(before, Braced(n) + rest, Braced(name), value) ==
                         (if n == name then value else Braced(n)) + ReplaceAll(before', rest, Braced(name), value);
          PassReplacesTokens(before', segs[1..], name, value);
      }
    }
  }

  lemma {:induction false} WordRunOfName(name: string, rest: string)
    requires AllWord(name) && rest != "" && !IsWord(rest[0])
    ensures WordRun(name + rest) == |name|
  {
    if name == "" {
      assert name + rest == rest;
    } else {
      assert (name + rest)[1..] == name[1..] + rest;
      WordRunOfName(name[1..], rest);
    }
  }

  lemma SweepAtToken(name: string, rest: string)
    requires name != "" && AllWord(name)
    ensures Sweep(Braced(name) + rest) == HumanizeToken(name) + Sweep(rest)
  {
    var s := Braced(name) + rest;
    assert "{{" <= s && s[2..] == name + ("}}" + rest);
    WordRunOfName(name, "}}" + rest);
    assert s[2 + |name|..] == "}}" + rest && "}}" <= "}}" + rest;
    assert TokenWord(s) == |name|;
    assert s[2..2 + |name|] == name && s[|name| + 4..] == rest;
  }

  function HumanizeAll(segs: seq<Segment>): string {
    if segs == [] then ""
    else (match segs[0] case Lit(text) => text case Tok(name) => HumanizeToken(name)) + HumanizeAll(segs[1..])
  }

  lemma {:induction false} SweepHumanizes(segs: seq<Segment>)
    requires GoodSegments(segs)
    ensures Sweep(Print(segs)) == HumanizeAll(segs)
  {
    if segs != [] {
      assert segs[0] in segs;
      SweepHumanizes(segs[1..]);
      match segs[0] {
        case Lit(text) => SweepCopies(text, Print(segs[1..]));
        case Tok(name) => SweepAtToken(name, Print(segs[1..]));
      }
    }
  }

  function ReplaceKnown(segs: seq<Segment>, ctx: Context): seq<Segment> {
    var s1 := ReplaceToken(segs, BUSINESS_NAME, ctx.businessName);
    var s2 := ReplaceToken(s1, PRODUCT, ctx.product);
    var s3 := ReplaceToken(s2, SERVICE, ctx.service);
    var s4 := ReplaceToken(s3, TARGET_CUSTOMER, ctx.targetCustomer);
    ReplaceToken(s4, DISCOVERY_CHANNEL, ctx.discoveryChannel)
  }

  lemma {:induction false} HumanizeKnownIsSimultaneous(segs: seq<Segment>, ctx: Context)
    ensures HumanizeAll(ReplaceKnown(segs, ctx)) == Simultaneous(segs, ctx)
  {
    if segs != [] {
      var out := ReplaceKnown(segs, ctx);
      assert out[1..] == ReplaceKnown(segs[1..], ctx);
      HumanizeKnownIsSimultaneous(segs[1..], ctx);
      if segs[0].Tok? {
        var name := segs[0].name;
        assert out[0] == (if name in [BUSINESS_NAME, PRODUCT, SERVICE, TARGET_CUSTOMER, DISCOVERY_CHANNEL]
                          then Lit(ValueOf(name, ctx)) else Tok(name));
      }
    }
  }

  // ----- main results on substitution -----

  lemma KnownNamesAreWords()
    ensures AllWord(BUSINESS_NAME) && AllWord(PRODUCT) && AllWord(SERVICE)
    ensures AllWord(TARGET_CUSTOMER) && AllWord(DISCOVERY_CHANNEL)
  {
  }

  lemma PassOnText(segs: seq<Segment>, name: string, value: string) returns (out: seq<Segment>)
    requires GoodSegments(segs) && AllWord(name) && Inert(value)
    ensures out == ReplaceToken(segs, name, value) && GoodSegments(out)
    ensures Pass(Print(segs), name, value) == Print(out)
  {
    PassReplacesTokens("", segs, name, value);
    out := ReplaceToken(segs, name, value);
  }

  lemma KnownPassesReplaceKnown(segs: seq<Segment>, ctx: Context)
    requires GoodSegments(segs) && InertContext(ctx)
    ensures KnownPasses(Print(segs), ctx) == Print(ReplaceKnown(segs, ctx)) && GoodSegments(ReplaceKnown(segs, ctx))
  {
    KnownNamesAreWords();
    var s1 := PassOnText(segs, BUSINESS_NAME, ctx.businessName);
    var s2 := PassOnText(s1, PRODUCT, ctx.product);
    var s3 := PassOnText(s2, SERVICE, ctx.service);
    var s4 := PassOnText(s3, TARGET_CUSTOMER, ctx.targetCustomer);
    var s5 := PassOnText(s4, DISCOVERY_CHANNEL, ctx.discoveryChannel);
  }

  /** On well-formed text and inert values the chain of passes is one simultaneous substitution. */
  lemma SubstituteIsSimultaneous(segs: seq<Segment>, ctx: Context)
    requires GoodSegments(segs) && InertContext(ctx)
    ensures Substitute(Print(segs), ctx) == Simultaneous(segs, ctx)
  {
    KnownPassesReplaceKnown(segs, ctx);
    SweepHumanizes(ReplaceKnown(segs, ctx));
    HumanizeKnownIsSimultaneous(segs, ctx);
  }

  predicate BoundedContext(ctx: Context) {
    forall v | v in [ctx.businessName, ctx.product, ctx.service, ctx.targetCustomer, ctx.discoveryChannel] ::
      0 < |v| <= VALUE_MAX
  }

  lemma ValueOfBounds(name: string, ctx: Context)
    requires BoundedContext(ctx) && name != ""
    ensures 0 < |ValueOf(name, ctx)| <= VALUE_MAX + |name|
  {
    assert forall v | v in [ctx.businessName, ctx.product, ctx.service, ctx.targetCustomer, ctx.discoveryChannel] ::
      0 < |v| <= VALUE_MAX;
    var vs := [ctx.businessName, ctx.product, ctx.service, ctx.targetCustomer, ctx.discoveryChannel];
    assert vs[0] in vs && vs[1] in vs && vs[2] in vs && vs[3] in vs && vs[4] in vs;
  }

  lemma ValueOfBraceFree(name: string, ctx: Context)
    requires InertContext(ctx) && AllWord(name)
    ensures BraceFree(ValueOf(name, ctx))
  {
    forall c | c in HumanizeToken(name)
      ensures c != '{' && c != '}'
    {
      var i :| 0 <= i < |name| && HumanizeToken(name)[i] == c;
      assert name[i] in name;
    }
  }

  /** No brace, so no token, is left; every token adds at most 200 characters; nothing vanishes. */
  lemma {:induction false} SimultaneousBounds(segs: seq<Segment>, ctx: Context)
    requires GoodSegments(segs) && InertContext(ctx) && BoundedContext(ctx)
    ensures BraceFree(Simultaneous(segs, ctx))
    ensures |Simultaneous(segs, ctx)| <= |Print(segs)| + VALUE_MAX * TokenCount(segs)
    ensures Print(segs) != "" ==> Simultaneous(segs, ctx) != ""
  {
    if segs != [] {
      assert segs[0] in segs;
      SimultaneousBounds(segs[1..], ctx);
      if segs[0].Tok? {
        ValueOfBounds(segs[0].name, ctx);
        ValueOfBraceFree(segs[0].name, ctx);
      }
    }
  }
}
