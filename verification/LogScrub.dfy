/** The audit log's metadata scrubber: sensitive keys redacted, strings and nesting capped. */
module LogScrub {
  import opened Json
  import opened ObjectGraph

  const SENSITIVE_KEY_FRAGMENTS := ["password", "token", "hash", "secret", "cvv", "pin", "card_number"]
  const REDACTED := "[REDACTED]"
  const MAX_STRING_LENGTH := 500
  const MAX_SCRUB_DEPTH := 8

  /** Lower case as far as it can produce a letter a to z; the Kelvin sign lowers to "k". */
  function Lower(c: char): char {
    if 'A' <= c <= 'Z' then (c as int + 32) as char else if c == '\U{212A}' then 'k' else c
  }

  function LowerAll(s: string): (r: string)
    ensures |r| == |s|
  {
    seq(|s|, i requires 0 <= i < |s| => Lower(s[i]))
  }

  predicate OccursAt(fragment: string, s: string, i: nat) {
    i + |fragment| <= |s| && s[i..i + |fragment|] == fragment
  }

  predicate Includes(s: string, fragment: string) {
    exists i | 0 <= i <= |s| :: OccursAt(fragment, s, i)
  }

  predicate IsSensitiveKey(key: string) {
    exists f | f in SENSITIVE_KEY_FRAGMENTS :: Includes(LowerAll(key), f)
  }

  /** What scrubValue returns for a value at nesting level `depth`; no hypothesis on the graph. */
  function Scrub(h: Heap, v: Value, depth: nat): Tree
    decreases MAX_SCRUB_DEPTH - depth, 0
  {
    match v
    case Text(s) => TText(Cut(s, MAX_STRING_LENGTH))
    case Other(code) => if depth >= MAX_SCRUB_DEPTH then TText(REDACTED) else TOther(code)
    case Ref(id) =>
      if depth >= MAX_SCRUB_DEPTH then TText(REDACTED)
      else
        var node := Look(h, id);
        if node.ArrNode? then TArr(ScrubAll(h, seq(|node.items|, i => false), node.items, depth + 1))
        else TObj(node.keys, ScrubAll(h, Sensitive(node.keys, |node.items|), node.items, depth + 1))
  }

  function Sensitive(keys: seq<string>, n: nat): (r: seq<bool>)
    ensures |r| == n
  {
    seq(n, i requires 0 <= i < n => i < |keys| && IsSensitiveKey(keys[i]))
  }

  function ScrubAll(h: Heap, hidden: seq<bool>, vs: seq<Value>, depth: nat): (r: seq<Tree>)
    requires |hidden| == |vs|
    ensures |r| == |vs|
    ensures forall i | 0 <= i < |vs| :: r[i] == if hidden[i] then TText(REDACTED) else Scrub(h, vs[i], depth)
    decreases MAX_SCRUB_DEPTH - depth, |vs| + 1
  {
    if vs == [] then []
    else [if hidden[0] then TText(REDACTED) else Scrub(h, vs[0], depth)] + ScrubAll(h, hidden[1..], vs[1..], depth)
  }

  method ScrubValue(h: Heap, v: Value, depth: nat) returns (t: Tree)
    ensures t == Scrub(h, v, depth)
    decreases MAX_SCRUB_DEPTH - depth, 0
  {
    if v.Text? {
      return TText(if |v.s| > MAX_STRING_LENGTH then v.s[..MAX_STRING_LENGTH] else v.s);
    }
    if depth >= MAX_SCRUB_DEPTH {
      return TText(REDACTED);
    }
    match v {
      case Other(code) => t := TOther(code);
      case Ref(id) =>
        var node := Look(h, id);
        var items := [];
        if node.ArrNode? {
          for i := 0 to |node.items|
            invariant |items| == i && forall k | 0 <= k < i :: items[k] == Scrub(h, node.items[k], depth + 1)
          {
            var item := ScrubValue(h, node.items[i], depth + 1);
            items := items + [item];
          }
          t := TArr(items);
        } else {
          t := ScrubObject(h, node.keys, node.items, depth);
        }
    }
  }

  /** Fills the scrubbed record entry by entry. */
  method ScrubObject(h: Heap, keys: seq<string>, entries: seq<Value>, depth: nat) returns (t: Tree)
    requires depth < MAX_SCRUB_DEPTH
    ensures t == TObj(keys, ScrubAll(h, Sensitive(keys, |entries|), entries, depth + 1))
    decreases MAX_SCRUB_DEPTH - depth - 1, |entries| + 2
  {
    var scrubbed := [];
    for i := 0 to |entries|
      invariant |scrubbed| == i
      invariant forall k | 0 <= k < i ::
                  scrubbed[k] == if Sensitive(keys, |entries|)[k] then TText(REDACTED)
                                 else Scrub(h, entries[k], depth + 1)
    {
      var entry := TText(REDACTED);
      if !(i < |keys| && IsSensitiveKey(keys[i])) {
        entry := ScrubValue(h, entries[i], depth + 1);
      }
      scrubbed := scrubbed + [entry];
    }
    assert scrubbed == ScrubAll(h, Sensitive(keys, |entries|), entries, depth + 1);
    t := TObj(keys, scrubbed);
  }

  // ----- which keys are sensitive, and what is left of an entry -----

  /** `mid` is the lower-case word `word`, in any mixture of cases. */
  predicate Spells(mid: string, word: string) {
    |mid| == |word| && forall k | 0 <= k < |word| ::
      || mid[k] == word[k]
      || ('a' <= word[k] <= 'z' && mid[k] as int == word[k] as int - 32)
      || (word[k] == 'k' && mid[k] == '\U{212A}')
  }

  predicate LowerCase(word: string) {
    forall c | c in word :: 'a' <= c <= 'z' || c == '_'
  }

  lemma SpellsLowers(mid: string, word: string)
    requires LowerCase(word)
    ensures Spells(mid, word) <==> LowerAll(mid) == word
  {
    if LowerAll(mid) == word {
      forall k | 0 <= k < |word|
        ensures mid[k] == word[k] || ('a' <= word[k] <= 'z' && mid[k] as int == word[k] as int - 32)
                || (word[k] == 'k' && mid[k] == '\U{212A}')
      {
        assert LowerAll(mid)[k] == word[k];
      }
    } else if Spells(mid, word) {
      forall k | 0 <= k < |word|
        ensures LowerAll(mid)[k] == word[k]
      {
        assert word[k] in word;
      }
    }
  }

  lemma FragmentsAreLowerCase(word: string)
    requires word in SENSITIVE_KEY_FRAGMENTS
    ensures LowerCase(word)
  {
  }

  /** A key with one of the seven words anywhere in it, in any case, is sensitive. */
  lemma WordMakesSensitive(before: string, mid: string, after: string, word: string)
    requires word in ["password", "token", "hash", "secret", "cvv", "pin", "card_number"] && Spells(mid, word)
    ensures IsSensitiveKey(before + mid + after)
  {
    FragmentsAreLowerCase(word);
    SpellsLowers(mid, word);
    var key := before + mid + after;
    assert LowerAll(key)[|before|..|before| + |mid|] == LowerAll(mid);
    assert OccursAt(word, LowerAll(key), |before|);
  }

  lemma WordIsSpelled(key: string, word: string) returns (before: string, mid: string, after: string)
    requires LowerCase(word) && Includes(LowerAll(key), word)
    ensures key == before + mid + after && Spells(mid, word)
  {
    var i :| 0 <= i <= |LowerAll(key)| && OccursAt(word, LowerAll(key), i);
    before, mid, after := key[..i], key[i..i + |word|], key[i + |word|..];
    assert LowerAll(mid) == LowerAll(key)[i..i + |word|];
    SpellsLowers(mid, word);
  }

  /** And no other key is. */
  lemma SensitiveHasWord(key: string) returns (before: string, mid: string, after: string, word: string)
    requires IsSensitiveKey(key)
    ensures word in ["password", "token", "hash", "secret", "cvv", "pin", "card_number"] && Spells(mid, word)
    ensures key == before + mid + after
  {
    word :| word in SENSITIVE_KEY_FRAGMENTS && Includes(LowerAll(key), word);
    FragmentsAreLowerCase(word);
    before, mid, after := WordIsSpelled(key, word);
  }

  /** An entry is replaced exactly when its key has one of the seven words in it; every other entry is
      scrubbed one level further down. */
  lemma RedactedExactlyUnderWords(h: Heap, id: nat, k: nat, depth: nat)
    requires id in h && h[id].ObjNode? && k < |h[id].keys| && k < |h[id].items| && depth < 8
    ensures var t, key := Scrub(h, Ref(id), depth), h[id].keys[k];
            && t.TObj? && t.keys == h[id].keys && |t.items| == |h[id].items|
            && ((exists before, mid, after, word :: key == before + mid + after && Spells(mid, word)
                   && word in ["password", "token", "hash", "secret", "cvv", "pin", "card_number"]) ==>
                  t.items[k] == TText("[REDACTED]"))
            && ((forall before, mid, after, word :: key == before + mid + after && Spells(mid, word) ==>
                   word !in ["password", "token", "hash", "secret", "cvv", "pin", "card_number"]) ==>
                  t.items[k] == Scrub(h, h[id].items[k], depth + 1))
  {
    var key := h[id].keys[k];
    if before, mid, after, word :| key == before + mid + after && Spells(mid, word)
                                   && word in ["password", "token", "hash", "secret", "cvv", "pin", "card_number"] {
      WordMakesSensitive(before, mid, after, word);
    } else if IsSensitiveKey(key) {
      var before, mid, after, word := SensitiveHasWord(key);
    }
  }

  /** A text keeps its first 500 characters; anything else eight levels down is replaced. */
  lemma ScrubbedLeaves(h: Heap, v: Value, depth: nat)
    ensures v.Text? ==> Scrub(h, v, depth) == TText(if |v.s| <= 500 then v.s else v.s[..500])
    ensures v.Other? && depth < 8 ==> Scrub(h, v, depth) == TOther(v.code)
    ensures !v.Text? && depth >= 8 ==> Scrub(h, v, depth) == TText("[REDACTED]")
    ensures v.Ref? && depth < 8 && Look(h, v.id).ArrNode? ==>
              var t, items := Scrub(h, v, depth), Look(h, v.id).items;
              && t.TArr? && |t.items| == |items|
              && forall i | 0 <= i < |items| :: t.items[i] == Scrub(h, items[i], depth + 1)
  {
  }

  // ----- what is promised -----

  /** Short strings, at most eight levels, nothing but the placeholder under a sensitive key. */
  predicate Clean(t: Tree, depth: nat)
    decreases t
  {
    match t
    case TText(s) => |s| <= MAX_STRING_LENGTH
    case TOther(_) => depth < MAX_SCRUB_DEPTH
    case TArr(items) =>
      depth < MAX_SCRUB_DEPTH && forall i | 0 <= i < |items| :: Clean(items[i], depth + 1)
    case TObj(keys, items) =>
      && depth < MAX_SCRUB_DEPTH
      && forall i | 0 <= i < |items| ::
           if i < |keys| && IsSensitiveKey(keys[i]) then items[i] == TText(REDACTED) else Clean(items[i], depth + 1)
  }

  /** The output is clean for every graph, cyclic or not. */
  lemma {:induction false} ScrubbedIsClean(h: Heap, v: Value, depth: nat)
    ensures Clean(Scrub(h, v, depth), depth)
    decreases MAX_SCRUB_DEPTH - depth, 0
  {
    if v.Ref? && depth < MAX_SCRUB_DEPTH {
      var node := Look(h, v.id);
      ScrubbedItemsAreClean(h, Hidden(node), node.items, depth + 1);
    }
  }

  lemma {:induction false} ScrubbedItemsAreClean(h: Heap, hidden: seq<bool>, vs: seq<Value>, depth: nat)
    requires |hidden| == |vs|
    ensures forall i | 0 <= i < |vs| && !hidden[i] :: Clean(ScrubAll(h, hidden, vs, depth)[i], depth)
    decreases MAX_SCRUB_DEPTH - depth, 1
  {
    forall i | 0 <= i < |vs| && !hidden[i]
      ensures Clean(ScrubAll(h, hidden, vs, depth)[i], depth)
    {
      ScrubbedIsClean(h, vs[i], depth);
    }
  }

  /** Scrubbing returns a tree unchanged exactly when it was clean. */
  lemma {:induction false} UnchangedExactlyWhenClean(h: Heap, v: Value, t: Tree, depth: nat)
    requires Denotes(h, v, t)
    ensures Scrub(h, v, depth) == t <==> Clean(t, depth)
    decreases t
  {
    if v.Ref? && depth < MAX_SCRUB_DEPTH && (t.TArr? || t.TObj?) {
      var node := Look(h, v.id);
      ScrubbedNode(h, v.id, depth);
      CleanNode(node, t, depth);
      ItemsUnchanged(h, Hidden(node), node.items, t.items, depth + 1);
    }
  }

  lemma CleanNode(node: Node, t: Tree, depth: nat)
    requires depth < MAX_SCRUB_DEPTH
    requires if node.ArrNode? then t.TArr? else t.TObj? && t.keys == node.keys
    requires |t.items| == |node.items|
    ensures Clean(t, depth) <==> forall i | 0 <= i < |t.items| ::
              if Hidden(node)[i] then t.items[i] == TText(REDACTED) else Clean(t.items[i], depth + 1)
  {
  }

  lemma {:induction false} ItemsUnchanged(h: Heap, hidden: seq<bool>, vs: seq<Value>, ts: seq<Tree>, depth: nat)
    requires |hidden| == |vs| == |ts| && forall i | 0 <= i < |ts| :: Denotes(h, vs[i], ts[i])
    ensures ScrubAll(h, hidden, vs, depth) == ts <==>
              forall i | 0 <= i < |ts| :: if hidden[i] then ts[i] == TText(REDACTED) else Clean(ts[i], depth)
    decreases ts
  {
    var out := ScrubAll(h, hidden, vs, depth);
    forall i | 0 <= i < |ts|
      ensures out[i] == ts[i] <==> if hidden[i] then ts[i] == TText(REDACTED) else Clean(ts[i], depth)
    {
      UnchangedExactlyWhenClean(h, vs[i], ts[i], depth);
    }
    assert out == ts <==> forall i | 0 <= i < |ts| :: out[i] == ts[i];
  }

  /** Scrubbing what was scrubbed before changes nothing. */
  lemma ScrubIsIdempotent(h: Heap, v: Value, depth: nat, again: Heap, w: Value)
    requires Denotes(again, w, Scrub(h, v, depth))
    ensures Scrub(again, w, depth) == Scrub(h, v, depth)
  {
    ScrubbedIsClean(h, v, depth);
    UnchangedExactlyWhenClean(again, w, Scrub(h, v, depth), depth);
  }

  /** Nothing under a sensitive key has any influence on what is logged. */
  lemma {:induction false} SensitiveValuesLeaveNoTrace(h: Heap, v: Value, depth: nat, o: nat, k: nat, secret: Value)
    requires o in h && h[o].ObjNode? && k < |h[o].items| && k < |h[o].keys| && IsSensitiveKey(h[o].keys[k])
    ensures Scrub(h[o := ObjNode(h[o].keys, h[o].items[k := secret])], v, depth) == Scrub(h, v, depth)
    decreases MAX_SCRUB_DEPTH - depth
  {
    if v.Ref? && depth < MAX_SCRUB_DEPTH {
      var other := h[o := ObjNode(h[o].keys, h[o].items[k := secret])];
      var node, changed := Look(h, v.id), Look(other, v.id);
      var hidden := Hidden(node);
      OnlyHiddenDiffers(h, o, k, secret, v.id);
      forall i | 0 <= i < |node.items| && !hidden[i]
        ensures Scrub(other, changed.items[i], depth + 1) == Scrub(h, node.items[i], depth + 1)
      {
        SensitiveValuesLeaveNoTrace(h, node.items[i], depth + 1, o, k, secret);
      }
      SameItems(h, node.items, other, changed.items, hidden, depth + 1);
      ScrubbedNode(h, v.id, depth);
      ScrubbedNode(other, v.id, depth);
    }
  }

  function Hidden(node: Node): (r: seq<bool>)
    ensures |r| == |node.items|
  {
    if node.ArrNode? then seq(|node.items|, i => false) else Sensitive(node.keys, |node.items|)
  }

  lemma ScrubbedNode(h: Heap, id: nat, depth: nat)
    requires depth < MAX_SCRUB_DEPTH
    ensures var node := Look(h, id);
            var items := ScrubAll(h, Hidden(node), node.items, depth + 1);
            Scrub(h, Ref(id), depth) == if node.ArrNode? then TArr(items) else TObj(node.keys, items)
  {
  }

  lemma OnlyHiddenDiffers(h: Heap, o: nat, k: nat, secret: Value, id: nat)
    requires o in h && h[o].ObjNode? && k < |h[o].items| && k < |h[o].keys| && IsSensitiveKey(h[o].keys[k])
    ensures var other := h[o := ObjNode(h[o].keys, h[o].items[k := secret])];
            var node, changed := Look(h, id), Look(other, id);
            && changed.ArrNode? == node.ArrNode? && |changed.items| == |node.items|
            && (node.ObjNode? ==> changed.keys == node.keys) && Hidden(changed) == Hidden(node)
            && forall i | 0 <= i < |node.items| && !Hidden(node)[i] :: changed.items[i] == node.items[i]
  {
  }

  lemma SameItems(h: Heap, vs: seq<Value>, other: Heap, ws: seq<Value>, hidden: seq<bool>, depth: nat)
    requires |hidden| == |vs| == |ws|
    requires forall i | 0 <= i < |vs| && !hidden[i] :: Scrub(other, ws[i], depth) == Scrub(h, vs[i], depth)
    ensures ScrubAll(other, hidden, ws, depth) == ScrubAll(h, hidden, vs, depth)
  {
  }

  // ----- every key is kept -----

  /** Following positions into containers. */
  function At(h: Heap, v: Value, path: seq<nat>): Option<Value>
    decreases |path|
  {
    if path == [] then Some(v)
    else if v.Ref? && path[0] < |Look(h, v.id).items| then At(h, Look(h, v.id).items[path[0]], path[1..])
    else None
  }

  function TreeAt(t: Tree, path: seq<nat>): Option<Tree>
    decreases |path|
  {
    if path == [] then Some(t)
    else if (t.TArr? || t.TObj?) && path[0] < |t.items| then TreeAt(t.items[path[0]], path[1..])
    else None
  }

  /** Some step of the path goes below a sensitive key. */
  predicate PassesSensitiveKey(h: Heap, v: Value, path: seq<nat>)
    decreases |path|
  {
    path != [] && v.Ref? && path[0] < |Look(h, v.id).items|
    && var node := Look(h, v.id);
       || (node.ObjNode? && path[0] < |node.keys| && IsSensitiveKey(node.keys[path[0]]))
       || PassesSensitiveKey(h, node.items[path[0]], path[1..])
  }

  /** A place of the input is found again in the output, at most eight levels down and not below a
      sensitive key: containers keep their kind, keys and length, scalars their value. */
  lemma {:induction false} PlacesAreKept(h: Heap, v: Value, depth: nat, path: seq<nat>)
    requires depth + |path| < MAX_SCRUB_DEPTH && At(h, v, path).Some? && !PassesSensitiveKey(h, v, path)
    ensures TreeAt(Scrub(h, v, depth), path).Some?
    ensures var place := TreeAt(Scrub(h, v, depth), path).value;
            match At(h, v, path).value
            case Text(s) => place.TText? && place.s <= s && (|s| <= MAX_STRING_LENGTH ==> place.s == s)
            case Other(code) => place == TOther(code)
            case Ref(id) =>
              && (Look(h, id).ArrNode? ==> place.TArr? && |place.items| == |Look(h, id).items|)
              && (Look(h, id).ObjNode? ==>
                    place.TObj? && place.keys == Look(h, id).keys && |place.items| == |Look(h, id).items|)
    decreases |path|
  {
    if path != [] {
      PlacesAreKept(h, Look(h, v.id).items[path[0]], depth + 1, path[1..]);
    }
  }
}
