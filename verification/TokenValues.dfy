/** Which context values come through the replace passes unchanged, and how far others make a text grow. */
module TokenValues {
  import opened TokenSubstitution

  function Occurrences(c: char, s: string): nat {
    if s == "" then 0 else (if s[0] == c then 1 else 0) + Occurrences(c, s[1..])
  }

  lemma {:induction false} OccurrencesAppend(c: char, s: string, t: string)
    ensures Occurrences(c, s + t) == Occurrences(c, s) + Occurrences(c, t)
  {
    if s == "" {
      assert s + t == t;
    } else {
      assert (s + t)[1..] == s[1..] + t;
      OccurrencesAppend(c, s[1..], t);
    }
  }

  lemma {:induction false} NoOccurrences(c: char, s: string)
    ensures Occurrences(c, s) == 0 <==> c !in s
  {
    if s != "" {
      NoOccurrences(c, s[1..]);
      assert s == [s[0]] + s[1..];
    }
  }

  lemma {:induction false} NoDollarIsPairFree(value: string)
    requires '$' !in value
    ensures PairFree(value)
  {
    if |value| >= 2 {
      NoDollarIsPairFree(value[1..]);
    }
  }

  // ----- dollar patterns -----

  /** With nothing around the match every pattern costs a dollar sign. */
  lemma {:induction false} ExpandLosesDollars(value: string, m: string)
    requires '$' !in m
    ensures Occurrences('$', Expand(value, m, "", "")) <= Occurrences('$', value)
    ensures !PairFree(value) ==> Occurrences('$', Expand(value, m, "", "")) < Occurrences('$', value)
    decreases |value|
  {
    if |value| >= 2 {
      assert value == [value[0]] + value[1..];
      if value[0] == '$' && value[1] in "$&`'" {
        var rest := Expand(value[2..], m, "", "");
        ExpandLosesDollars(value[2..], m);
        NoOccurrences('$', m);
        OccurrencesAppend('$', m, rest);
        OccurrencesAppend('$', "$", rest);
        assert "" + rest == rest;
        assert value[1..][1..] == value[2..];
      } else {
        ExpandLosesDollars(value[1..], m);
        OccurrencesAppend('$', [value[0]], Expand(value[1..], m, "", ""));
      }
    }
  }

  lemma BracedHasNoDollar(name: string)
    requires AllWord(name)
    ensures '$' !in Braced(name)
  {
    assert '$' !in name;
  }

  /** A value is inserted as it is at every match exactly when it has no dollar pattern. */
  lemma InsertedUnchangedExactlyWhenPairFree(value: string, name: string)
    requires AllWord(name)
    ensures (forall before, after :: Expand(value, Braced(name), before, after) == value) <==> PairFree(value)
  {
    if PairFree(value) {
      forall before, after
        ensures Expand(value, Braced(name), before, after) == value
      {
        ExpandInert(value, Braced(name), before, after);
      }
    } else {
      BracedHasNoDollar(name);
      ExpandLosesDollars(value, Braced(name));
      assert Expand(value, Braced(name), "", "") != value;
    }
  }

  lemma PassOnToken(name: string, value: string)
    ensures Pass(Braced(name), name, value) == Expand(value, Braced(name), "", "")
  {
    var t := Braced(name);
    assert t <= t && t[|t|..] == "";
    assert ReplaceAll("" + t, "", t, value) == "";
  }

  // ----- braces: later passes -----

  predicate TokenFree(s: string, token: string) {
    s == "" || (!(token <= s) && TokenFree(s[1..], token))
  }

  lemma {:induction false} TokenFreeIsCopied(before: string, s: string, token: string, value: string)
    requires token != "" && TokenFree(s, token)
    ensures ReplaceAll(before, s, token, value) == s
    decreases |s|
  {
    if s != "" {
      TokenFreeIsCopied(before + [s[0]], s[1..], token, value);
    }
  }

  /** A pass with an empty value removes an opening brace with every match. */
  lemma {:induction false} EmptyPassLosesBraces(before: string, s: string, token: string)
    requires "{" <= token
    ensures Occurrences('{', ReplaceAll(before, s, token, "")) <= Occurrences('{', s)
    ensures !TokenFree(s, token) ==> Occurrences('{', ReplaceAll(before, s, token, "")) < Occurrences('{', s)
    decreases |s|
  {
    if s != "" {
      if token <= s {
        var rest := s[|token|..];
        assert s == token + rest;
        EmptyPassLosesBraces(before + token, rest, token);
        OccurrencesAppend('{', token, rest);
        assert "" + ReplaceAll(before + token, rest, token, "") == ReplaceAll(before + token, rest, token, "");
      } else {
        EmptyPassLosesBraces(before + [s[0]], s[1..], token);
        OccurrencesAppend('{', [s[0]], ReplaceAll(before + [s[0]], s[1..], token, ""));
      }
    }
  }

  lemma {:induction false} NoBraceIsTokenFree(s: string, token: string)
    requires "{" <= token && '{' !in s
    ensures TokenFree(s, token)
  {
    if s != "" {
      assert s[0] in s;
      NoBraceIsTokenFree(s[1..], token);
    }
  }

  lemma PrefixInFront(t: string, s: string, after: string)
    requires t != "" && t[|t| - 1] == '}'
    ensures t <= s + after && '}' !in after ==> t <= s
  {
    var all := s + after;
    if t <= all {
      if |t| > |s| {
        assert all[|t| - 1] == after[|t| - 1 - |s|];
      } else {
        assert all[..|t|] == s[..|t|];
      }
    }
  }

  lemma {:induction false} FollowedIsTokenFree(s: string, after: string, name: string)
    requires BraceFree(after) && TokenFree(s, Braced(name))
    ensures TokenFree(s + after, Braced(name))
  {
    if s != "" {
      assert (s + after)[1..] == s[1..] + after;
      FollowedIsTokenFree(s[1..], after, name);
      PrefixInFront(Braced(name), s, after);
    } else {
      assert s + after == after;
      NoBraceIsTokenFree(after, Braced(name));
    }
  }

  /** Text without an opening brace before and without a closing one after makes no new token. */
  lemma {:induction false} SurroundedIsTokenFree(before: string, s: string, after: string, name: string)
    requires '{' !in before && BraceFree(after) && TokenFree(s, Braced(name))
    ensures TokenFree(before + s + after, Braced(name))
    decreases |before|
  {
    if before != "" {
      var all := before + s + after;
      assert all[1..] == before[1..] + s + after && all[0] == before[0];
      SurroundedIsTokenFree(before[1..], s, after, name);
    } else {
      FollowedIsTokenFree(s, after, name);
      assert "" + s + after == s + after;
    }
  }

  /** A pass with a value without dollar patterns on a text with one token of its name. */
  lemma PassInText(before: string, name: string, after: string, value: string)
    requires BraceFree(before) && BraceFree(after) && PairFree(value)
    ensures Pass(before + Braced(name) + after, name, value) == before + value + after
  {
    var t := Braced(name);
    assert before + t + after == before + (t + after);
    PassCopies("", before, t + after, t, value);
    assert t <= t + after && (t + after)[|t|..] == after;
    ExpandInert(value, t, "" + before, after);
    PassCopies("" + before + t, after, "", t, value);
    assert after + "" == after;
  }

  /** A value inserted for one name into any text is left alone by the pass of another name, whatever
      that one's value, exactly when it does not hold the other token. */
  lemma BracesInValueAreResubstituted(value: string, name: string, other: string)
    requires PairFree(value)
    ensures (forall before, after, v | BraceFree(before) && BraceFree(after) ::
               Pass(Pass(before + Braced(name) + after, name, value), other, v) == before + value + after)
            <==> TokenFree(value, Braced(other))
  {
    if TokenFree(value, Braced(other)) {
      forall before, after, v | BraceFree(before) && BraceFree(after)
        ensures Pass(Pass(before + Braced(name) + after, name, value), other, v) == before + value + after
      {
        PassInText(before, name, after, value);
        SurroundedIsTokenFree(before, value, after, other);
        TokenFreeIsCopied("", before + value + after, Braced(other), v);
      }
    } else {
      PassInText("", name, "", value);
      EmptyPassLosesBraces("", value, Braced(other));
      assert "" + value + "" == value;
      assert Pass(Pass("" + Braced(name) + "", name, value), other, "") != "" + value + "";
    }
  }

  // ----- braces: the sweep -----

  predicate WordTokenFree(s: string) {
    s == "" || (TokenWord(s) == 0 && WordTokenFree(s[1..]))
  }

  lemma {:induction false} HumanizedHas(c: char, name: string)
    requires AllWord(name) && (c == '$' || c == '{')
    ensures Occurrences(c, HumanizeToken(name)) == 0
  {
    NoOccurrences(c, HumanizeToken(name));
    forall i | 0 <= i < |name|
      ensures HumanizeToken(name)[i] != c
    {
      assert name[i] in name;
    }
  }

  lemma {:induction false} WordRunIsWord(s: string, n: nat)
    requires n <= WordRun(s)
    ensures n <= |s| && AllWord(s[..n])
  {
    if n > 0 {
      WordRunIsWord(s[1..], n - 1);
      assert s[..n] == [s[0]] + s[1..][..n - 1];
    }
  }

  lemma TokenAtStart(s: string)
    requires TokenWord(s) > 0
    ensures var n := TokenWord(s);
            AllWord(s[2..2 + n]) && s == Braced(s[2..2 + n]) + s[n + 4..]
  {
    var n := TokenWord(s);
    WordRunIsWord(s[2..], n);
    assert s[2..][..n] == s[2..2 + n];
    assert s[2 + n..][..2] == "}}" && s[2 + n..][2..] == s[n + 4..];
    assert s == s[..2] + s[2..2 + n] + s[2 + n..][..2] + s[n + 4..];
  }

  /** The sweep adds no dollar sign and removes opening braces with every token. */
  lemma {:induction false} SweepLosesBraces(s: string)
    ensures Occurrences('$', Sweep(s)) <= Occurrences('$', s)
    ensures Occurrences('{', Sweep(s)) <= Occurrences('{', s)
    ensures !WordTokenFree(s) ==> Occurrences('{', Sweep(s)) < Occurrences('{', s)
    decreases |s|
  {
    if s != "" {
      var n := TokenWord(s);
      if n > 0 {
        var name, rest := s[2..2 + n], s[n + 4..];
        TokenAtStart(s);
        SweepLosesBraces(rest);
        HumanizedHas('$', name);
        HumanizedHas('{', name);
        OccurrencesAppend('$', HumanizeToken(name), Sweep(rest));
        OccurrencesAppend('{', HumanizeToken(name), Sweep(rest));
        OccurrencesAppend('$', Braced(name), rest);
        OccurrencesAppend('{', Braced(name), rest);
        assert Occurrences('{', Braced(name)) >= 1;
      } else {
        SweepLosesBraces(s[1..]);
        OccurrencesAppend('$', [s[0]], Sweep(s[1..]));
        OccurrencesAppend('{', [s[0]], Sweep(s[1..]));
      }
    }
  }

  lemma {:induction false} SweepShortens(s: string)
    ensures |Sweep(s)| <= |s|
    decreases |s|
  {
    if s != "" {
      var n := TokenWord(s);
      SweepShortens(if n > 0 then s[n + 4..] else s[1..]);
    }
  }

  lemma {:induction false} WordTokenFreeIsKept(s: string)
    requires WordTokenFree(s)
    ensures Sweep(s) == s
    decreases |s|
  {
    if s != "" {
      WordTokenFreeIsKept(s[1..]);
    }
  }

  lemma TokenWordAtBraced(name: string, rest: string)
    requires name != "" && AllWord(name)
    ensures TokenWord(Braced(name) + rest) == |name|
  {
    var s := Braced(name) + rest;
    assert "{{" <= s && s[2..] == name + ("}}" + rest);
    WordRunOfName(name, "}}" + rest);
    assert s[2 + |name|..] == "}}" + rest && "}}" <= "}}" + rest;
  }

  lemma {:induction false} SurroundedIsWordTokenFree(before: string, s: string, after: string)
    requires '{' !in before && BraceFree(after) && WordTokenFree(s)
    ensures WordTokenFree(before + s + after)
    decreases |before| + |s|
  {
    if before != "" {
      var all := before + s + after;
      assert all[1..] == before[1..] + s + after && all[0] == before[0];
      SurroundedIsWordTokenFree(before[1..], s, after);
    } else {
      FollowedIsWordTokenFree(s, after);
      assert "" + s + after == s + after;
    }
  }

  lemma {:induction false} FollowedIsWordTokenFree(s: string, after: string)
    requires BraceFree(after) && WordTokenFree(s)
    ensures WordTokenFree(s + after)
  {
    if s != "" {
      assert (s + after)[1..] == s[1..] + after;
      FollowedIsWordTokenFree(s[1..], after);
      TokenInFront(s, after);
    } else {
      assert s + after == after;
      NoBraceIsWordTokenFree(after);
    }
  }

  lemma TokenInFront(s: string, after: string)
    requires BraceFree(after)
    ensures TokenWord(s + after) > 0 ==> TokenWord(s) > 0
  {
    var all, n := s + after, TokenWord(s + after);
    if n > 0 {
      TokenAtStart(all);
      var t := Braced(all[2..2 + n]);
      assert t <= all;
      PrefixInFront(t, s, after);
      assert s == t + s[|t|..];
      TokenWordAtBraced(all[2..2 + n], s[|t|..]);
    }
  }

  lemma {:induction false} NoBraceIsWordTokenFree(s: string)
    requires '{' !in s
    ensures WordTokenFree(s)
  {
    if s != "" {
      assert s[0] in s;
      NoBraceIsWordTokenFree(s[1..]);
    }
  }

  predicate KeptIn(before: string, after: string, value: string) {
    Sweep(Pass(before + Braced(DISCOVERY_CHANNEL) + after, DISCOVERY_CHANNEL, value)) == before + value + after
  }

  /** The value of the last pass reaches every final text as it is exactly when it has no dollar
      pattern and no {{word}}. */
  lemma LastValueIsKeptExactlyWhenInert(value: string)
    ensures (forall before, after | BraceFree(before) && BraceFree(after) :: KeptIn(before, after, value))
            <==> PairFree(value) && WordTokenFree(value)
    ensures KeptIn("", "", value) <==> PairFree(value) && WordTokenFree(value)
  {
    if PairFree(value) && WordTokenFree(value) {
      forall before, after | BraceFree(before) && BraceFree(after)
        ensures KeptIn(before, after, value)
      {
        PassInText(before, DISCOVERY_CHANNEL, after, value);
        SurroundedIsWordTokenFree(before, value, after);
        WordTokenFreeIsKept(before + value + after);
      }
    } else {
      LostAlone(value);
    }
  }

  lemma LostAlone(value: string)
    requires !(PairFree(value) && WordTokenFree(value))
    ensures !KeptIn("", "", value)
  {
    KnownNamesAreWords();
    assert "" + Braced(DISCOVERY_CHANNEL) + "" == Braced(DISCOVERY_CHANNEL) && "" + value + "" == value;
    PassOnToken(DISCOVERY_CHANNEL, value);
    var inserted := Expand(value, Braced(DISCOVERY_CHANNEL), "", "");
    if PairFree(value) {
      ExpandInert(value, Braced(DISCOVERY_CHANNEL), "", "");
      SweepLosesBraces(value);
    } else {
      BracedHasNoDollar(DISCOVERY_CHANNEL);
      ExpandLosesDollars(value, Braced(DISCOVERY_CHANNEL));
      SweepLosesBraces(inserted);
    }
  }

  /** Another name's pass leaves a token alone. */
  lemma OtherTokenIsCopied(name: string, other: string, value: string)
    requires name != "" && AllWord(name) && AllWord(other) && name != other
    ensures Pass(Braced(name), other, value) == Braced(name)
  {
    var s, t := Braced(name), Braced(other);
    BracedPrefix(name, other, "");
    assert s + "" == s;
    assert s[1..][0] == '{' && s[1..][1] == name[0] && name[0] in name && t[1] == '{';
    assert s[1..][1..] == name + "}}";
    NoBraceIsTokenFree(name + "}}", t);
    assert TokenFree(s[1..], t);
    TokenFreeIsCopied("", s, t, value);
  }

  /** The text that is the channel's token alone, for every context. */
  lemma ChannelTokenAlone(ctx: Context)
    ensures Substitute(Braced(DISCOVERY_CHANNEL), ctx)
            == Sweep(Expand(ctx.discoveryChannel, Braced(DISCOVERY_CHANNEL), "", ""))
    ensures Substitute(Braced(DISCOVERY_CHANNEL), ctx) == ctx.discoveryChannel
            <==> PairFree(ctx.discoveryChannel) && WordTokenFree(ctx.discoveryChannel)
  {
    ChannelPassesAlone(ctx);
    PassOnToken(DISCOVERY_CHANNEL, ctx.discoveryChannel);
    AloneIsKept(ctx.discoveryChannel);
  }

  lemma AloneIsKept(value: string)
    ensures Sweep(Pass(Braced(DISCOVERY_CHANNEL), DISCOVERY_CHANNEL, value)) == value
            <==> PairFree(value) && WordTokenFree(value)
  {
    LastValueIsKeptExactlyWhenInert(value);
    assert "" + Braced(DISCOVERY_CHANNEL) + "" == Braced(DISCOVERY_CHANNEL) && "" + value + "" == value;
  }

  lemma ChannelPassesAlone(ctx: Context)
    ensures KnownPasses(Braced(DISCOVERY_CHANNEL), ctx)
            == Pass(Braced(DISCOVERY_CHANNEL), DISCOVERY_CHANNEL, ctx.discoveryChannel)
  {
    KnownNamesAreWords();
    OtherTokenIsCopied(DISCOVERY_CHANNEL, BUSINESS_NAME, ctx.businessName);
    OtherTokenIsCopied(DISCOVERY_CHANNEL, PRODUCT, ctx.product);
    OtherTokenIsCopied(DISCOVERY_CHANNEL, SERVICE, ctx.service);
    OtherTokenIsCopied(DISCOVERY_CHANNEL, TARGET_CUSTOMER, ctx.targetCustomer);
  }

  // ----- values that are well-formed texts themselves -----

  function Splice(segs: seq<Segment>, name: string, inner: seq<Segment>): seq<Segment> {
    if segs == [] then [] else (if segs[0] == Tok(name) then inner else [segs[0]]) + Splice(segs[1..], name, inner)
  }

  lemma {:induction false} PrintAppend(a: seq<Segment>, b: seq<Segment>)
    ensures Print(a + b) == Print(a) + Print(b)
  {
    if a == [] {
      assert a + b == b;
    } else {
      assert (a + b)[1..] == a[1..] + b;
      PrintAppend(a[1..], b);
    }
  }

  /** A pass inserts the segments of such a value where its name stands. */
  lemma {:induction false} PassSplices(before: string, segs: seq<Segment>, name: string, inner: seq<Segment>)
    requires GoodSegments(segs) && GoodSegments(inner) && AllWord(name) && PairFree(Print(inner))
    ensures ReplaceAll(before, Print(segs), Braced(name), Print(inner)) == Print(Splice(segs, name, inner))
    ensures GoodSegments(Splice(segs, name, inner))
    decreases |segs|
  {
    if segs != [] {
      assert segs[0] in segs;
      var rest := Splice(segs[1..], name, inner);
      match segs[0] {
        case Lit(text) =>
          PassCopies(before, text, Print(segs[1..]), Braced(name), Print(inner));
          PassSplices(before + text, segs[1..], name, inner);
        case Tok(n) =>
          PassAtToken(before, n, Print(segs[1..]), name, Print(inner));
          var before' :| ReplaceAll(before, Braced(n) + Print(segs[1..]), Braced(name), Print(inner)) ==
                         (if n == name then Print(inner) else Braced(n))
                         + ReplaceAll(before', Print(segs[1..]), Braced(name), Print(inner));
          PassSplices(before', segs[1..], name, inner);
          PrintAppend(inner, rest);
      }
      if segs[0] != Tok(name) {
        assert ([segs[0]] + rest)[1..] == rest;
      }
    }
  }

  function Toks(segs: seq<Segment>, name: string): nat {
    if segs == [] then 0 else (if segs[0] == Tok(name) then 1 else 0) + Toks(segs[1..], name)
  }

  lemma {:induction false} ToksAppend(a: seq<Segment>, b: seq<Segment>, name: string)
    ensures Toks(a + b, name) == Toks(a, name) + Toks(b, name)
  {
    if a == [] {
      assert a + b == b;
    } else {
      assert (a + b)[1..] == a[1..] + b;
      ToksAppend(a[1..], b, name);
    }
  }

  lemma {:induction false} SpliceToks(segs: seq<Segment>, name: string, inner: seq<Segment>, other: string)
    requires name != other
    ensures Toks(Splice(segs, name, inner), other) == Toks(segs, other) + Toks(segs, name) * Toks(inner, other)
  {
    if segs != [] {
      SpliceToks(segs[1..], name, inner, other);
      ToksAppend(if segs[0] == Tok(name) then inner else [segs[0]], Splice(segs[1..], name, inner), other);
      OneMore(Toks(segs[1..], name), Toks(inner, other));
    }
  }

  lemma OneMore(n: nat, k: nat)
    ensures (1 + n) * k == k + n * k
  {
  }

  lemma {:induction false} HumanizedLength(segs: seq<Segment>, name: string, text: string)
    ensures |HumanizeAll(Splice(segs, name, [Lit(text)]))| >= Toks(segs, name) * |text|
  {
    if segs != [] {
      HumanizedLength(segs[1..], name, text);
      var rest := Splice(segs[1..], name, [Lit(text)]);
      var head := if segs[0] == Tok(name) then [Lit(text)] else [segs[0]];
      assert (head + rest)[0] == head[0] && (head + rest)[1..] == rest;
      assert segs[0] == Tok(name) ==> (1 + Toks(segs[1..], name)) * |text| == |text| + Toks(segs[1..], name) * |text|;
    }
  }

  /** `n` times the token of `name`. */
  function Copies(name: string, n: nat): seq<Segment> {
    if n == 0 then [] else [Tok(name)] + Copies(name, n - 1)
  }

  lemma {:induction false} CopiesAre(name: string, n: nat)
    requires name != "" && AllWord(name)
    ensures GoodSegments(Copies(name, n)) && Toks(Copies(name, n), name) == n
    ensures |Print(Copies(name, n))| == n * (|name| + 4)
    ensures forall c | c in Print(Copies(name, n)) :: IsWord(c) || c == '{' || c == '}'
    ensures PairFree(Print(Copies(name, n)))
    ensures n > 0 ==> Print(Copies(name, n))[0] == '{' && Print(Copies(name, n))[|Print(Copies(name, n))| - 1] == '}'
  {
    if n > 0 {
      CopiesAre(name, n - 1);
      assert Copies(name, n)[1..] == Copies(name, n - 1);
      assert n * (|name| + 4) == (n - 1) * (|name| + 4) + |name| + 4;
    }
    NoDollarIsPairFree(Print(Copies(name, n)));
  }

  lemma PrintLit(text: string)
    ensures Print([Lit(text)]) == text
  {
    assert [Lit(text)][1..] == [] && text + "" == text;
  }

  lemma PassOnSegments(segs: seq<Segment>, name: string, inner: seq<Segment>) returns (out: seq<Segment>)
    requires GoodSegments(segs) && GoodSegments(inner) && AllWord(name) && PairFree(Print(inner))
    ensures out == Splice(segs, name, inner) && GoodSegments(out)
    ensures Pass(Print(segs), name, Print(inner)) == Print(out)
  {
    PassSplices("", segs, name, inner);
    out := Splice(segs, name, inner);
  }

  /** A business name of a tokens for the customer and a target customer of b tokens for the channel. */
  predicate Nested(ctx: Context, a: nat, b: nat) {
    && ctx.businessName == Print(Copies(TARGET_CUSTOMER, a))
    && ctx.targetCustomer == Print(Copies(DISCOVERY_CHANNEL, b))
    && Inert(ctx.product) && Inert(ctx.service) && Inert(ctx.discoveryChannel)
  }

  function BeforeCustomer(segs: seq<Segment>, ctx: Context, a: nat): seq<Segment> {
    var s1 := Splice(segs, BUSINESS_NAME, Copies(TARGET_CUSTOMER, a));
    Splice(Splice(s1, PRODUCT, [Lit(ctx.product)]), SERVICE, [Lit(ctx.service)])
  }

  lemma FirstPasses(segs: seq<Segment>, ctx: Context, a: nat, b: nat)
    requires GoodSegments(segs) && Nested(ctx, a, b)
    ensures var s1 := Pass(Print(segs), BUSINESS_NAME, ctx.businessName);
            Pass(Pass(s1, PRODUCT, ctx.product), SERVICE, ctx.service) == Print(BeforeCustomer(segs, ctx, a))
    ensures GoodSegments(BeforeCustomer(segs, ctx, a))
  {
    KnownNamesAreWords();
    CopiesAre(TARGET_CUSTOMER, a);
    PrintLit(ctx.product);
    PrintLit(ctx.service);
    var s1 := PassOnSegments(segs, BUSINESS_NAME, Copies(TARGET_CUSTOMER, a));
    var s2 := PassOnSegments(s1, PRODUCT, [Lit(ctx.product)]);
    var s3 := PassOnSegments(s2, SERVICE, [Lit(ctx.service)]);
  }

  lemma CustomersBefore(segs: seq<Segment>, ctx: Context, a: nat)
    ensures Toks(BeforeCustomer(segs, ctx, a), TARGET_CUSTOMER) >= Toks(segs, BUSINESS_NAME) * a
  {
    KnownNamesAreWords();
    CopiesAre(TARGET_CUSTOMER, a);
    var s1 := Splice(segs, BUSINESS_NAME, Copies(TARGET_CUSTOMER, a));
    SpliceToks(segs, BUSINESS_NAME, Copies(TARGET_CUSTOMER, a), TARGET_CUSTOMER);
    SpliceToks(s1, PRODUCT, [Lit(ctx.product)], TARGET_CUSTOMER);
    SpliceToks(Splice(s1, PRODUCT, [Lit(ctx.product)]), SERVICE, [Lit(ctx.service)], TARGET_CUSTOMER);
  }

  lemma LastPasses(segs: seq<Segment>, ctx: Context, b: nat) returns (channels: nat)
    requires GoodSegments(segs) && Inert(ctx.discoveryChannel)
    ensures var customers := Pass(Print(segs), TARGET_CUSTOMER, Print(Copies(DISCOVERY_CHANNEL, b)));
            var text := Pass(customers, DISCOVERY_CHANNEL, ctx.discoveryChannel);
            |Sweep(text)| >= channels * |ctx.discoveryChannel|
    ensures channels >= Toks(segs, TARGET_CUSTOMER) * b
  {
    KnownNamesAreWords();
    CopiesAre(DISCOVERY_CHANNEL, b);
    PrintLit(ctx.discoveryChannel);
    var s4 := PassOnSegments(segs, TARGET_CUSTOMER, Copies(DISCOVERY_CHANNEL, b));
    var s5 := PassOnSegments(s4, DISCOVERY_CHANNEL, [Lit(ctx.discoveryChannel)]);
    SweepHumanizes(s5);
    SpliceToks(segs, TARGET_CUSTOMER, Copies(DISCOVERY_CHANNEL, b), DISCOVERY_CHANNEL);
    HumanizedLength(s4, DISCOVERY_CHANNEL, ctx.discoveryChannel);
    channels := Toks(s4, DISCOVERY_CHANNEL);
  }

  /** Nested values multiply: every business name in a text grows to a * b copies of the channel. */
  lemma NestedValuesMultiply(segs: seq<Segment>, ctx: Context, a: nat, b: nat)
    requires GoodSegments(segs) && Nested(ctx, a, b)
    ensures |Substitute(Print(segs), ctx)| >= Toks(segs, BUSINESS_NAME) * a * b * |ctx.discoveryChannel|
  {
    FirstPasses(segs, ctx, a, b);
    var channels := LastPasses(BeforeCustomer(segs, ctx, a), ctx, b);
    CustomersBefore(segs, ctx, a);
    var customers := Toks(BeforeCustomer(segs, ctx, a), TARGET_CUSTOMER);
    Products(Toks(segs, BUSINESS_NAME), a, b, customers, channels, |ctx.discoveryChannel|);
  }

  lemma Products(t: nat, a: nat, b: nat, x: nat, y: nat, n: nat)
    requires x >= t * a && y >= x * b
    ensures y * n >= t * a * b * n
  {
    assert x * b >= t * a * b;
    assert y * n >= (t * a * b) * n;
  }

  // ----- exact texts and lengths for well-formed values -----

  /** The five values as parsed texts, in the order of the passes. */
  datatype Values = Values(business: seq<Segment>, product: seq<Segment>, service: seq<Segment>,
                           customer: seq<Segment>, channel: seq<Segment>)

  predicate GoodValue(text: string, inner: seq<Segment>) {
    GoodSegments(inner) && text == Print(inner) && PairFree(text)
  }

  predicate Parses(ctx: Context, v: Values) {
    && GoodValue(ctx.businessName, v.business) && GoodValue(ctx.product, v.product) && GoodValue(ctx.service, v.service)
    && GoodValue(ctx.targetCustomer, v.customer) && GoodValue(ctx.discoveryChannel, v.channel)
  }

  datatype Insertion = Insertion(name: string, inner: seq<Segment>)

  function Passes(v: Values): seq<Insertion> {
    [Insertion(BUSINESS_NAME, v.business), Insertion(PRODUCT, v.product), Insertion(SERVICE, v.service),
     Insertion(TARGET_CUSTOMER, v.customer), Insertion(DISCOVERY_CHANNEL, v.channel)]
  }

  /** One splice after another. */
  function Chain(segs: seq<Segment>, passes: seq<Insertion>): seq<Segment>
    decreases |passes|
  {
    if passes == [] then segs else Chain(Splice(segs, passes[0].name, passes[0].inner), passes[1..])
  }

  /** The length a token has in the final text, and a parsed text with it. */
  function TokenLength(name: string, passes: seq<Insertion>): nat
    decreases |passes|, 0
  {
    if passes == [] then |name|
    else if name == passes[0].name then TextLength(passes[0].inner, passes[1..])
    else TokenLength(name, passes[1..])
  }

  function TextLength(segs: seq<Segment>, passes: seq<Insertion>): nat
    decreases |passes|, 1, |segs|
  {
    if segs == [] then 0
    else (match segs[0] case Lit(text) => |text| case Tok(name) => TokenLength(name, passes))
         + TextLength(segs[1..], passes)
  }

  lemma {:induction false} TextLengthAppend(a: seq<Segment>, b: seq<Segment>, passes: seq<Insertion>)
    ensures TextLength(a + b, passes) == TextLength(a, passes) + TextLength(b, passes)
    decreases |a|
  {
    if a == [] {
      assert a + b == b;
    } else {
      assert (a + b)[1..] == a[1..] + b;
      TextLengthAppend(a[1..], b, passes);
    }
  }

  lemma {:induction false} SpliceLength(segs: seq<Segment>, passes: seq<Insertion>)
    requires passes != []
    ensures TextLength(Splice(segs, passes[0].name, passes[0].inner), passes[1..]) == TextLength(segs, passes)
    decreases |segs|
  {
    if segs != [] {
      var name, inner := passes[0].name, passes[0].inner;
      SpliceLength(segs[1..], passes);
      TextLengthAppend(if segs[0] == Tok(name) then inner else [segs[0]], Splice(segs[1..], name, inner), passes[1..]);
      assert [segs[0]][1..] == [];
    }
  }

  lemma {:induction false} ChainLength(segs: seq<Segment>, passes: seq<Insertion>)
    ensures TextLength(Chain(segs, passes), []) == TextLength(segs, passes)
    decreases |passes|
  {
    if passes != [] {
      SpliceLength(segs, passes);
      ChainLength(Splice(segs, passes[0].name, passes[0].inner), passes[1..]);
    }
  }

  lemma {:induction false} HumanizedTextLength(segs: seq<Segment>)
    ensures |HumanizeAll(segs)| == TextLength(segs, [])
  {
    if segs != [] {
      HumanizedTextLength(segs[1..]);
    }
  }

  lemma ChainOfFive(segs: seq<Segment>, v: Values)
    ensures Chain(segs, Passes(v)) ==
            var s2 := Splice(Splice(segs, BUSINESS_NAME, v.business), PRODUCT, v.product);
            var s4 := Splice(Splice(s2, SERVICE, v.service), TARGET_CUSTOMER, v.customer);
            Splice(s4, DISCOVERY_CHANNEL, v.channel)
  {
    var p := Passes(v);
    var s1 := Splice(segs, BUSINESS_NAME, v.business);
    var s2 := Splice(s1, PRODUCT, v.product);
    var s3 := Splice(s2, SERVICE, v.service);
    var s4 := Splice(s3, TARGET_CUSTOMER, v.customer);
    var s5 := Splice(s4, DISCOVERY_CHANNEL, v.channel);
    assert Chain(segs, p) == Chain(s1, p[1..]);
    assert p[1..][1..] == p[2..] && Chain(s1, p[1..]) == Chain(s2, p[2..]);
    assert p[2..][1..] == p[3..] && Chain(s2, p[2..]) == Chain(s3, p[3..]);
    assert p[3..][1..] == p[4..] && Chain(s3, p[3..]) == Chain(s4, p[4..]);
    assert p[4..][1..] == [] && Chain(s4, p[4..]) == Chain(s5, []);
  }

  lemma PassesSplice(segs: seq<Segment>, ctx: Context, v: Values)
    requires GoodSegments(segs) && Parses(ctx, v)
    ensures KnownPasses(Print(segs), ctx) == Print(Chain(segs, Passes(v))) && GoodSegments(Chain(segs, Passes(v)))
  {
    KnownNamesAreWords();
    ChainOfFive(segs, v);
    var s1 := PassOnSegments(segs, BUSINESS_NAME, v.business);
    var s2 := PassOnSegments(s1, PRODUCT, v.product);
    var s3 := PassOnSegments(s2, SERVICE, v.service);
    var s4 := PassOnSegments(s3, TARGET_CUSTOMER, v.customer);
    var s5 := PassOnSegments(s4, DISCOVERY_CHANNEL, v.channel);
  }

  /** For values that are well-formed texts themselves, tokens included, the final text is the chain of
      splices in plain words, and its length is that of its literals and of each token's final text. */
  lemma SubstituteSplices(segs: seq<Segment>, ctx: Context, v: Values)
    requires GoodSegments(segs) && Parses(ctx, v)
    ensures Substitute(Print(segs), ctx) == HumanizeAll(Chain(segs, Passes(v)))
    ensures |Substitute(Print(segs), ctx)| == TextLength(segs, Passes(v))
  {
    PassesSplice(segs, ctx, v);
    SweepHumanizes(Chain(segs, Passes(v)));
    HumanizedTextLength(Chain(segs, Passes(v)));
    ChainLength(segs, Passes(v));
  }
}
